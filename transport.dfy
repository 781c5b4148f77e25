/** The XMPP client as the dispatcher sees it: a scheduler of named
    one-shot occurrences that refuses a second occurrence under a name it
    already holds, an outbound log of `send_message` calls, and the log of
    rooms joined through the multi-user-chat plugin. The connection
    itself is not modelled. */
module Transport {
  import opened Common
  import opened Replies
  import opened Tables

  /** A scheduler entry's name: a dispatcher timer, scheduled under
      `str((alias, method))` (distinct keys give distinct strings), or any
      other name such as 'Rejoin <room>'. */
  datatype SchedName = TimerName(key: TimerKey) | Named(name: string)

  /** What an occurrence does when it fires: `run_timer` for a timer key
      with the keyword arguments bound at arming time, or a room join. */
  datatype Action = RunTimerAction(key: TimerKey, kwargs: Kwargs) | JoinAction(room: string, nick: string)

  datatype Occurrence = Occurrence(name: SchedName, delay: int, action: Action)

  /** Whether an occurrence named `n` is waiting. */
  function IsScheduled(s: seq<Occurrence>, n: SchedName): (b: bool)
    ensures b <==> exists i :: 0 <= i < |s| && s[i].name == n
  {
    if s == [] then false
    else if s[0].name == n then true
    else
      assert forall i :: 1 <= i < |s| ==> s[i] == s[1..][i - 1];
      IsScheduled(s[1..], n)
  }

  ghost predicate DistinctNames(s: seq<Occurrence>)
  {
    forall i, j :: 0 <= i < j < |s| ==> s[i].name != s[j].name
  }

  /** The scheduler's `remove(name)`: drops the first occurrence so named. */
  function RemoveFirst(s: seq<Occurrence>, n: SchedName): (r: seq<Occurrence>)
    ensures !IsScheduled(s, n) ==> r == s
  {
    if s == [] then []
    else if s[0].name == n then s[1..]
    else [s[0]] + RemoveFirst(s[1..], n)
  }

  /** Removing a present name drops the occurrence at some index `k`
      holding that name and shifts everything after it down by one. */
  lemma {:induction false} RemoveFirstAt(s: seq<Occurrence>, n: SchedName) returns (k: nat)
    requires IsScheduled(s, n)
    ensures k < |s| && s[k].name == n && |RemoveFirst(s, n)| == |s| - 1
    ensures forall i :: 0 <= i < k ==> RemoveFirst(s, n)[i] == s[i]
    ensures forall i :: k <= i < |s| - 1 ==> RemoveFirst(s, n)[i] == s[i + 1]
  {
    var r := RemoveFirst(s, n);
    if s[0].name == n {
      k := 0;
      assert r == s[1..];
    } else {
      var t := s[1..];
      assert IsScheduled(t, n);
      var k' := RemoveFirstAt(t, n);
      k := k' + 1;
      assert r == [s[0]] + RemoveFirst(t, n);
      forall i | 0 <= i < k
        ensures r[i] == s[i]
      {
        if i > 0 {
          assert r[i] == RemoveFirst(t, n)[i - 1] && t[i - 1] == s[i];
        }
      }
      forall i | k <= i < |s| - 1
        ensures r[i] == s[i + 1]
      {
        assert r[i] == RemoveFirst(t, n)[i - 1] && t[i] == s[i + 1];
      }
    }
  }

  /** With distinct names, removing a name removes exactly that name and
      keeps the names distinct. */
  lemma RemoveFirstNames(s: seq<Occurrence>, n: SchedName)
    requires DistinctNames(s)
    ensures DistinctNames(RemoveFirst(s, n))
    ensures forall m :: IsScheduled(RemoveFirst(s, n), m) <==> IsScheduled(s, m) && m != n
  {
    if IsScheduled(s, n) {
      var k := RemoveFirstAt(s, n);
      var r := RemoveFirst(s, n);
      forall i, j | 0 <= i < j < |r| ensures r[i].name != r[j].name {
        var i', j' := if i < k then i else i + 1, if j < k then j else j + 1;
        assert r[i] == s[i'];
        assert r[j] == s[j'];
      }
      forall m | IsScheduled(r, m) ensures IsScheduled(s, m) && m != n {
        var i :| 0 <= i < |r| && r[i].name == m;
        var i' := if i < k then i else i + 1;
        assert s[i'] == r[i];
      }
      forall m | IsScheduled(s, m) && m != n ensures IsScheduled(r, m) {
        var i :| 0 <= i < |s| && s[i].name == m;
        var i' := if i < k then i else i - 1;
        assert i != k && r[i'] == s[i];
      }
    }
  }

  /** Appending an occurrence under a fresh name keeps names distinct. */
  lemma AppendFreshName(s: seq<Occurrence>, o: Occurrence)
    requires DistinctNames(s) && !IsScheduled(s, o.name)
    ensures DistinctNames(s + [o])
    ensures forall m :: IsScheduled(s + [o], m) <==> IsScheduled(s, m) || m == o.name
  {
    var r := s + [o];
    forall m | IsScheduled(r, m) ensures IsScheduled(s, m) || m == o.name {
      var i :| 0 <= i < |r| && r[i].name == m;
      if i < |s| { assert s[i].name == m; }
    }
    forall m | IsScheduled(s, m) ensures IsScheduled(r, m) {
      var i :| 0 <= i < |s| && s[i].name == m;
      assert r[i] == s[i];
    }
    assert r[|s|] == o;
  }

  /** An occurrence named outside `ns` is waiting in `s1` exactly when it
      was waiting in `s0`: a change confined to the names `ns`. */
  ghost predicate Keeps(s0: seq<Occurrence>, s1: seq<Occurrence>, ns: set<SchedName>)
  {
    forall o: Occurrence :: o.name !in ns ==> (o in s1 <==> o in s0)
  }

  /** `remove(name)` touches no occurrence under another name. */
  lemma {:induction false} RemoveFirstKeeps(s: seq<Occurrence>, n: SchedName)
    ensures Keeps(s, RemoveFirst(s, n), {n})
  {
    if s != [] {
      RemoveFirstKeeps(s[1..], n);
      assert s == [s[0]] + s[1..];
    }
  }

  /** The occurrences whose name is not in `ns`, in their order: what a
      scheduler keeps of the occurrences an operation does not touch. */
  ghost function Without(s: seq<Occurrence>, ns: set<SchedName>): seq<Occurrence>
  {
    if s == [] then []
    else (if s[0].name in ns then [] else [s[0]]) + Without(s[1..], ns)
  }

  /** The filter keeps exactly the occurrences named outside `ns`. */
  lemma {:induction false} WithoutIn(s: seq<Occurrence>, ns: set<SchedName>, o: Occurrence)
    ensures o in Without(s, ns) <==> o in s && o.name !in ns
  {
    if s != [] {
      WithoutIn(s[1..], ns, o);
      assert s == [s[0]] + s[1..];
    }
  }

  /** Two changes that each keep the occurrences outside their names keep
      those outside both. */
  lemma KeepsThen(s0: seq<Occurrence>, s1: seq<Occurrence>, s2: seq<Occurrence>, a: set<SchedName>, b: set<SchedName>)
    requires Keeps(s0, s1, a) && Keeps(s1, s2, b)
    ensures Keeps(s0, s2, a + b)
  {
  }

  /** Filtering by names keeps every occurrence of any other name. */
  lemma WithoutKeeps(s: seq<Occurrence>, ns: set<SchedName>)
    ensures Keeps(s, Without(s, ns), ns)
  {
    forall o: Occurrence | o.name !in ns
      ensures o in Without(s, ns) <==> o in s
    {
      WithoutIn(s, ns, o);
    }
  }

  lemma {:induction false} WithoutConcat(a: seq<Occurrence>, b: seq<Occurrence>, ns: set<SchedName>)
    ensures Without(a + b, ns) == Without(a, ns) + Without(b, ns)
  {
    if a != [] {
      var head := if a[0].name in ns then [] else [a[0]];
      assert (a + b)[0] == a[0] && (a + b)[1..] == a[1..] + b;
      assert Without(a + b, ns) == head + Without(a[1..] + b, ns);
      WithoutConcat(a[1..], b, ns);
      assert head + (Without(a[1..], ns) + Without(b, ns)) == (head + Without(a[1..], ns)) + Without(b, ns);
    } else {
      assert a + b == b;
    }
  }

  /** Filtering twice is filtering by both name sets. */
  lemma {:induction false} WithoutWithout(s: seq<Occurrence>, ns: set<SchedName>, ms: set<SchedName>)
    ensures Without(Without(s, ns), ms) == Without(s, ns + ms)
  {
    if s != [] {
      WithoutWithout(s[1..], ns, ms);
      var head := if s[0].name in ns then [] else [s[0]];
      WithoutConcat(head, Without(s[1..], ns), ms);
      if s[0].name !in ns {
        assert [s[0]][1..] == [];
      }
    }
  }

  /** With distinct names, `remove(name)` is the filter by that name. */
  lemma {:induction false} RemoveFirstIsWithout(s: seq<Occurrence>, n: SchedName)
    requires DistinctNames(s)
    ensures RemoveFirst(s, n) == Without(s, {n})
  {
    if s != [] {
      assert DistinctNames(s[1..]) by {
        forall i, j | 0 <= i < j < |s[1..]| ensures s[1..][i].name != s[1..][j].name {
          assert s[1..][i] == s[i + 1] && s[1..][j] == s[j + 1];
        }
      }
      if s[0].name == n {
        WithoutNone(s[1..], {n});
      } else {
        RemoveFirstIsWithout(s[1..], n);
      }
    }
  }

  /** Filtering by names none of the occurrences has changes nothing. */
  lemma {:induction false} WithoutNone(s: seq<Occurrence>, ns: set<SchedName>)
    requires forall i :: 0 <= i < |s| ==> s[i].name !in ns
    ensures Without(s, ns) == s
  {
    if s != [] {
      assert forall i :: 0 <= i < |s[1..]| ==> s[1..][i] == s[i + 1];
      WithoutNone(s[1..], ns);
    }
  }

  /** The names waiting in a scheduler. */
  ghost function NameSet(s: seq<Occurrence>): set<SchedName>
  {
    set i | 0 <= i < |s| :: s[i].name
  }

  lemma NameSetScheduled(s: seq<Occurrence>)
    ensures forall n :: n in NameSet(s) <==> IsScheduled(s, n)
  {
  }

  /** What the dispatcher can observe of the client. */
  datatype Snapshot = Snapshot(
    scheduler: seq<Occurrence>,
    schedules: seq<SchedName>,
    sent: seq<Send>,
    joined: seq<(string, string)>)

  class Client {
    /** Occurrences waiting to fire. */
    var scheduler: seq<Occurrence>
    /** Every accepted `schedule` call, in order. */
    var schedules: seq<SchedName>
    /** Every `send_message` call, in order. */
    var sent: seq<Send>
    /** Every `joinMUC(room, nick)` call of the MUC plugin, in order. */
    var joined: seq<(string, string)>

    ghost predicate Valid()
      reads this
    {
      DistinctNames(scheduler)
    }

    function State(): Snapshot
      reads this
    {
      Snapshot(scheduler, schedules, sent, joined)
    }

    constructor ()
      ensures Valid()
      ensures scheduler == [] && schedules == [] && sent == [] && joined == []
    {
      scheduler, schedules, sent, joined := [], [], [], [];
    }

    /** `schedule(name, ...)`: refused (a ValueError, `ok` false) when the
        name is already scheduled. */
    method Schedule(o: Occurrence) returns (ok: bool)
      requires Valid()
      modifies this
      ensures Valid()
      ensures ok <==> !IsScheduled(old(scheduler), o.name)
      ensures scheduler == if ok then old(scheduler) + [o] else old(scheduler)
      ensures schedules == if ok then old(schedules) + [o.name] else old(schedules)
      ensures NameSet(scheduler) == NameSet(old(scheduler)) + {o.name}
      ensures Keeps(old(scheduler), scheduler, {o.name})
      ensures sent == old(sent) && joined == old(joined)
    {
      ok := !IsScheduled(scheduler, o.name);
      NameSetScheduled(scheduler);
      if ok {
        AppendFreshName(scheduler, o);
        scheduler := scheduler + [o];
        schedules := schedules + [o.name];
      }
      NameSetScheduled(scheduler);
    }

    /** `scheduler.remove(name)`: `found` false stands for the ValueError
        raised when no occurrence has that name. */
    method Remove(n: SchedName) returns (found: bool)
      requires Valid()
      modifies this
      ensures Valid()
      ensures found <==> IsScheduled(old(scheduler), n)
      ensures scheduler == RemoveFirst(old(scheduler), n)
      ensures forall m :: IsScheduled(scheduler, m) <==> IsScheduled(old(scheduler), m) && m != n
      ensures NameSet(scheduler) == NameSet(old(scheduler)) - {n}
      ensures Keeps(old(scheduler), scheduler, {n})
      ensures schedules == old(schedules) && sent == old(sent) && joined == old(joined)
    {
      found := IsScheduled(scheduler, n);
      RemoveFirstKeeps(scheduler, n);
      RemoveFirstNames(scheduler, n);
      NameSetScheduled(scheduler);
      scheduler := RemoveFirst(scheduler, n);
      NameSetScheduled(scheduler);
    }

    method SendMessage(m: Send)
      modifies this
      ensures sent == old(sent) + [m]
      ensures scheduler == old(scheduler) && schedules == old(schedules) && joined == old(joined)
    {
      sent := sent + [m];
    }

    method JoinMuc(room: string, nick: string)
      modifies this
      ensures joined == old(joined) + [(room, nick)]
      ensures scheduler == old(scheduler) && schedules == old(schedules) && sent == old(sent)
    {
      joined := joined + [(room, nick)];
    }
  }
}
