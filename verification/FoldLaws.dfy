/** Which record is a key's latest, told from store times, log names and places in the logs. */
module FoldLaws {
  import opened Bytes
  import opened Options
  import opened Order
  import opened Pickle
  import opened Frames
  import opened ScanFacts
  import opened Fold
  import opened Store

  /** Code-point order of names. */
  predicate NameBefore(a: string, b: string) {
    exists i :: 0 <= i <= |a| && i < |b| && a[..i] == b[..i] && (i == |a| || a[i] < b[i])
  }

  lemma {:induction false} CodesTail(a: string)
    requires a != []
    ensures Codes(a)[1..] == Codes(a[1..]) && Codes(a)[0] == a[0] as int
  {}

  lemma {:induction false} LessIsNameBefore(a: string, b: string)
    ensures Less(Codes(a), Codes(b)) <==> NameBefore(a, b)
    decreases |a|
  {
    if a == [] {
      if b != [] { assert a[..0] == b[..0]; }
    } else if b != [] {
      CodesTail(a);
      CodesTail(b);
      LessIsNameBefore(a[1..], b[1..]);
      if a[0] < b[0] { assert a[..0] == b[..0]; }
      if a[0] == b[0] && NameBefore(a[1..], b[1..]) {
        var i :| 0 <= i <= |a[1..]| && i < |b[1..]| && a[1..][..i] == b[1..][..i]
          && (i == |a[1..]| || a[1..][i] < b[1..][i]);
        assert a[..i + 1] == [a[0]] + a[1..][..i] && b[..i + 1] == [b[0]] + b[1..][..i];
      }
      if NameBefore(a, b) {
        var i :| 0 <= i <= |a| && i < |b| && a[..i] == b[..i] && (i == |a| || a[i] < b[i]);
        if i > 0 {
          assert a[0] == a[..i][0] == b[..i][0] == b[0];
          assert a[1..][..i - 1] == a[..i][1..] && b[1..][..i - 1] == b[..i][1..];
        }
      }
    }
  }

  lemma {:induction false} NamesAscend(names: set<string>)
    ensures var s := SortedNames(names); forall i, j :: 0 <= i < j < |s| ==> NameBefore(s[i], s[j])
  {
    hide NameBefore, Less, Codes;
    CodesInjective();
    var s := SortedNames(names);
    forall i, j | 0 <= i < j < |s|
      ensures NameBefore(s[i], s[j])
    {
      assert Before(s[i], s[j], Codes);
      LessIsNameBefore(s[i], s[j]);
    }
  }

  lemma {:induction false} NotBothBefore(a: string, b: string)
    ensures !(NameBefore(a, b) && (NameBefore(b, a) || a == b))
  {
    hide NameBefore;
    LessIsNameBefore(a, b);
    LessIsNameBefore(b, a);
    if Less(Codes(a), Codes(b)) {
      if Less(Codes(b), Codes(a)) { LessTransitive(Codes(a), Codes(b), Codes(a)); }
      LessIrreflexive(Codes(a));
    }
  }

  /** `x` is scanned before `y`: in a log named before, or at an earlier place of the same log. */
  predicate ScannedBefore(x: Located, y: Located) {
    NameBefore(x.log, y.log) || (x.log == y.log && x.start < y.start)
  }

  ghost predicate InScanOrder(items: seq<Located>) {
    forall i, j :: 0 <= i < j < |items| ==> ScannedBefore(items[i], items[j])
  }

  lemma {:induction false} LogInOrder(env: Env, log: string, data: bytes)
    ensures InScanOrder(ScanLog(env, log, data))
  {
    hide Walk, ParseFrame, NameBefore;
    WalkOrdered(env, data, 0);
    var w := Walk(env, data, 0);
    forall i, j | 0 <= i < j < |w|
      ensures w[i].start < w[j].start
    { assert w[i] in w && ParseFrame(env, data, w[i].start) == Some(w[i]); }
  }

  lemma {:induction false} OrderConcat(a: seq<Located>, b: seq<Located>)
    requires InScanOrder(a) && InScanOrder(b)
    requires forall x, y :: x in a && y in b ==> ScannedBefore(x, y)
    ensures InScanOrder(a + b)
  {
    hide ScannedBefore;
    var s := a + b;
    forall i, j | 0 <= i < j < |s|
      ensures ScannedBefore(s[i], s[j])
    {
      if i < |a| <= j { assert a[i] in a && b[j - |a|] in b; }
    }
  }

  lemma {:induction false} GatherInOrder(env: Env, logs: map<string, LogFile>, names: seq<string>)
    requires forall i, j :: 0 <= i < j < |names| ==> NameBefore(names[i], names[j])
    ensures InScanOrder(Gather(env, logs, names))
  {
    hide NameBefore, ScanLog, InScanOrder;
    if names == [] {
      assert InScanOrder([]) by { NoneInOrder(); }
    } else {
      var front, last := names[..|names| - 1], names[|names| - 1];
      GatherInOrder(env, logs, front);
      GatherMembers(env, logs, front);
      var found := if last in logs && logs[last].readable then ScanLog(env, last, logs[last].data) else [];
      if last in logs && logs[last].readable {
        LogInOrder(env, last, logs[last].data);
        ScanLogMembers(env, last, logs[last].data);
      } else {
        NoneInOrder();
      }
      forall x, y | x in Gather(env, logs, front) && y in found
        ensures ScannedBefore(x, y)
      {
        var i :| 0 <= i < |front| && front[i] == x.log;
        assert names[i] == x.log;
      }
      OrderConcat(Gather(env, logs, front), found);
    }
  }

  lemma {:induction false} NoneInOrder()
    ensures InScanOrder([])
  {}

  /** The fold's answer stands at a place that nothing newer or later contests. */
  lemma {:induction false} LatestPlace(items: seq<Located>, key: string) returns (i: nat)
    requires Winner(items, key).Some?
    ensures IsLatestAt(items, i) && items[i] == Winner(items, key).value
  {
    var n := |items| - 1;
    var front := items[..n];
    WinnerIsNewest(front, key);
    if Winner(items, key) == Winner(front, key) && Winner(front, key).Some?
       && !(items[n].rec.key == key && items[n].rec.Time() >= Winner(front, key).value.rec.Time()) {
      i := LatestPlace(front, key);
      forall j | 0 <= j < |items| && items[j].rec.key == items[i].rec.key
        ensures items[j].rec.Time() < items[i].rec.Time() || (items[j].rec.Time() == items[i].rec.Time() && j <= i)
      { if j < n { assert items[j] == front[j]; } }
    } else {
      i := n;
      forall j | 0 <= j < n && items[j].rec.key == key
        ensures items[j].rec.Time() <= items[n].rec.Time()
      { assert items[j] == front[j] && front[j] in front; }
    }
  }

  /** `y` does not contest `x`: it is older, or as old and scanned before it. */
  predicate Yields(y: Located, x: Located) {
    y.rec.Time() < x.rec.Time() || (y.rec.Time() == x.rec.Time() && (y == x || ScannedBefore(y, x)))
  }

  /** A record is its key's latest over all logs if and only if every other one of the key is older, or as old and
      in a log named before, or at an earlier place of the same log. */
  lemma {:induction false} LatestExactly(env: Env, logs: map<string, LogFile>, x: Located)
    requires x in AllItems(env, logs)
    ensures Winner(AllItems(env, logs), x.rec.key) == Some(x)
            <==> forall y :: y in AllItems(env, logs) && y.rec.key == x.rec.key ==> Yields(y, x)
  {
    hide Winner, Gather, SortedNames, ScannedBefore, NameBefore;
    NamesAscend(logs.Keys);
    GatherInOrder(env, logs, SortedNames(logs.Keys));
    var items := AllItems(env, logs);
    WinnerIsNewest(items, x.rec.key);
    if Winner(items, x.rec.key) == Some(x) {
      var i := LatestPlace(items, x.rec.key);
      forall y | y in items && y.rec.key == x.rec.key
        ensures Yields(y, x)
      {
        var j :| 0 <= j < |items| && items[j] == y;
        if j < i { assert ScannedBefore(items[j], items[i]); }
      }
    } else if forall y :: y in items && y.rec.key == x.rec.key ==> Yields(y, x) {
      var i := LatestPlace(items, x.rec.key);
      var j :| 0 <= j < |items| && items[j] == x;
      assert Yields(items[i], x);
      assert ScannedBefore(x, items[i]) by { if i < j { } else { } }
      NotBothScannedBefore(x, items[i]);
      assert false;
    }
  }

  lemma {:induction false} NotBothScannedBefore(x: Located, y: Located)
    ensures !(ScannedBefore(x, y) && ScannedBefore(y, x))
  {
    hide NameBefore;
    NotBothBefore(x.log, y.log);
    NotBothBefore(y.log, x.log);
  }
}
