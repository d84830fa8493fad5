/** How long an entry set with a time to live is served, with the arithmetic written out. */
module TimeToLive {
  import opened Bytes
  import opened Options
  import opened Expiry
  import opened Pickle
  import opened Index
  import opened Compaction
  import opened Consolidation
  import opened LogCaches
  import opened LoneWriter
  import opened LoneWriterRuns

  /** An entry set at `now` with this time to live is served at `t`: without one, or with zero, at any time. */
  predicate Lives(expire: Option<int>, now: int, t: int) {
    expire == None || expire == Some(0) || t <= now + expire.value
  }

  /** The call writes or removes the key. */
  predicate Writes(cmd: Command, key: string) {
    match cmd
    case SetCmd(k, _, _, _, _, _) => k == key
    case DeleteCmd(k, _, _, _) => k == key
    case ClearCmd(_) => true
    case _ => false
  }

  /** The record of any writer's `set` lives so long. */
  lemma {:induction false} RecordLives(env: Env, prefix: string, minFileSize: int, key: string, value: PyObj,
                                       expire: Option<int>, now: int, t: int)
    ensures RecordFor(env, prefix, minFileSize, key, value, expire, now).LiveAt(t) <==> Lives(expire, now, t)
  {
    hide PoolPath;
  }

  /** What a call does not write stays in the map. */
  lemma {:induction false} StaysInTable(c: LogCache, m: Table, s: Moment, cmd: Command, key: string)
    requires Lawful(c.env) && !Writes(cmd, key) && key in m
    ensures key in React(c, m, s, cmd).table && React(c, m, s, cmd).table[key] == m[key]
  {
    hide Lawful, Appended, Indexable, Consolidated, CompactLog, c.SetEffect, c.Checking;
  }

  /** The last call of a run that does not write the key before it finds the key's entry in the map. */
  lemma {:induction false} StaysThrough(c: LogCache, m: Table, s: Moment, cmds: seq<Command>, last: Command,
                                        key: string)
    returns (table: Table, at: Moment)
    requires Lawful(c.env) && key in m && forall cmd :: cmd in cmds ==> !Writes(cmd, key)
    ensures key in table && table[key] == m[key]
    ensures |Reactions(c, m, s, cmds + [last]).replies| == |cmds| + 1
    ensures Reactions(c, m, s, cmds + [last]).replies[|cmds|] == React(c, table, at, last).reply
    decreases |cmds|
  {
    hide Lawful, React, Writes;
    var all := cmds + [last];
    if cmds == [] {
      assert all[0] == last && all[1..] == [];
      table, at := m, s;
    } else {
      assert cmds[0] in cmds && all[0] == cmds[0] && all[1..] == cmds[1..] + [last];
      StaysInTable(c, m, s, cmds[0], key);
      var first := React(c, m, s, cmds[0]);
      table, at := StaysThrough(c, first.table, first.s, cmds[1..], last, key);
    }
  }

  /** A read of an entry answers at one of its two clock readings. */
  lemma {:induction false} GetAnswers(c: LogCache, m: Table, s: Moment, get: Command)
    requires Lawful(c.env) && get.GetCmd? && get.key in m && !React(c, m, s, get).reply.Failed?
    ensures var reply := React(c, m, s, get).reply;
            && (Alive(m, get.key, get.now) && Alive(m, get.key, get.wall) ==> reply == Found(Some(m[get.key].value)))
            && (!Alive(m, get.key, get.now) && !Alive(m, get.key, get.wall) ==> reply == Found(None))
  {
    hide Lawful, Indexable;
  }

  lemma {:induction false} SetEnters(c: LogCache, m: Table, s: Moment, set_: Command)
    requires Lawful(c.env) && set_.SetCmd? && React(c, m, s, set_).reply == Done
    ensures Entered(React(c, m, s, set_).table, set_)
  {
    hide Lawful, c.SetEffect, ExpiryTime;
  }

  /** The map's entry is the one set. */
  predicate Entered(table: Table, set_: Command) {
    set_.SetCmd? && set_.key in table && table[set_.key] == Slot(set_.value, ExpiryTime(set_.expire, set_.now))
  }

  /** The reply of a `get`, when it does not raise: the value set if it lives at the `get`'s clock readings, and
      nothing if it lives at neither; so with one reading the value exactly while it lives. */
  predicate Served(reply: Reply, set_: Command, get: Command)
    requires set_.SetCmd? && get.GetCmd?
  {
    !reply.Failed? ==>
      && (Lives(set_.expire, set_.now, get.now) && Lives(set_.expire, set_.now, get.wall) ==>
            reply == Found(Some(set_.value)))
      && (!Lives(set_.expire, set_.now, get.now) && !Lives(set_.expire, set_.now, get.wall) ==> reply == Found(None))
  }

  lemma {:induction false} EnteredIsServed(c: LogCache, table: Table, at: Moment, set_: Command, get: Command)
    requires Lawful(c.env) && Entered(table, set_) && get.GetCmd? && get.key == set_.key
    ensures Served(React(c, table, at, get).reply, set_, get)
  {
    hide Lawful, React;
    if !React(c, table, at, get).reply.Failed? { GetAnswers(c, table, at, get); }
  }

  /** After a `set` that was stored, and with no later write of its key, a `get` is served the value set while it
      lives. */
  lemma {:induction false} ServedWhileAlive(c: LogCache, m: Table, s: Moment, set_: Command, mid: seq<Command>,
                                            get: Command)
    requires Lawful(c.env) && set_.SetCmd? && get.GetCmd? && get.key == set_.key
    requires forall cmd :: cmd in mid ==> !Writes(cmd, get.key)
    requires React(c, m, s, set_).reply == Done
    ensures var replies := Reactions(c, m, s, [set_] + (mid + [get])).replies;
            |replies| == |mid| + 2 && Served(replies[|mid| + 1], set_, get)
  {
    hide *;
    SetEnters(c, m, s, set_);
    FirstOf(c, m, s, set_, mid + [get]);
    var first := React(c, m, s, set_);
    EnteredHolds(first.table, set_);
    var table, at := StaysThrough(c, first.table, first.s, mid, get, get.key);
    StillEntered(first.table, table, set_);
    EnteredIsServed(c, table, at, set_, get);
  }

  lemma {:induction false} FirstOf(c: LogCache, m: Table, s: Moment, first: Command, rest: seq<Command>)
    requires Lawful(c.env)
    ensures var t := React(c, m, s, first);
            Reactions(c, m, s, [first] + rest).replies == [t.reply] + Reactions(c, t.table, t.s, rest).replies
  {
    hide Lawful, React;
    assert ([first] + rest)[1..] == rest;
  }

  lemma {:induction false} EnteredHolds(table: Table, set_: Command)
    requires Entered(table, set_)
    ensures set_.SetCmd? && set_.key in table
  {}

  lemma {:induction false} StillEntered(table: Table, later: Table, set_: Command)
    requires Entered(table, set_) && set_.key in later && later[set_.key] == table[set_.key]
    ensures Entered(later, set_)
  {}
}
