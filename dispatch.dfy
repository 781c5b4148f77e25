/** What `MucChatBot`'s dispatch paths (mtj/jibber/jabber.py) do with one
    inbound message, as pure functions of the dispatcher's tables, the
    handlers' behaviour and the regular-expression semantics: which
    handler methods are called, which of them count as answering, what is
    sent, which timers are re-armed and which exception, if any, escapes.
    The imperative methods of `Jabber.MucChatBot` are proved against these. */
module Dispatch {
  import opened Common
  import opened Replies
  import opened Tables
  import opened Transport

  /** The fields of an inbound message stanza the dispatcher reads. */
  datatype Msg = Msg(mtype: string, from: string, mucnick: string, mucroom: string, body: string)

  /** One call of a handler method: its alias and name, the message (`None`
      for a timer, which passes `{}`), the match found (`None` for listeners
      and timers), and the `msg` and `match` entries of a timer's keyword
      arguments, which `send_package_method` pops and hands to the handler
      in place of `{}` and `None` (empty for every other caller). */
  datatype Call = Call(alias: string, methodName: string, msg: Option<Msg>, found: Option<Match>, popped: Kwargs)

  /** What a handler method's body does: return a reply, or raise. */
  datatype Outcome = Returns(reply: Reply) | Fails

  /** The handlers' behaviour, left abstract. */
  type Body = Call -> Outcome

  /** What `getattr(self.objects[alias], method)` and the guarded call give. */
  datatype Invocation = LookupFailed(error: Exc) | HandlerFailed | Replied(reply: Reply)

  /** The handler lookup is outside the `try`: a missing alias is a
      KeyError and a missing method an AttributeError, both escaping. Only
      the body's own exception is caught. */
  function Invoke(objects: map<string, Handler>, body: Body, c: Call): (v: Invocation)
    ensures v.LookupFailed? <==> c.alias !in objects || c.methodName !in objects[c.alias].methods
    ensures c.alias !in objects ==> v == LookupFailed(KeyError)
    ensures v == HandlerFailed <==> !v.LookupFailed? && body(c).Fails?
  {
    if c.alias !in objects then LookupFailed(KeyError)
    else if c.methodName !in objects[c.alias].methods then LookupFailed(AttributeError)
    else match body(c)
      case Fails => HandlerFailed
      case Returns(r) => Replied(r)
  }

  /** `random.randint(lo, hi)` with lo > hi raises a ValueError. */
  predicate ArmFails(spec: TimerSpec)
  {
    spec.delay.Range? && spec.delay.lo > spec.delay.hi
  }

  /** No timer of the table would fail to arm. */
  predicate AllArmable(ts: seq<TimerEntry>)
  {
    forall i :: 0 <= i < |ts| ==> !ArmFails(ts[i].spec)
  }

  lemma AllArmableSnoc(ts: seq<TimerEntry>, j: nat)
    requires j < |ts| && AllArmable(ts[..j]) && !ArmFails(ts[j].spec)
    ensures AllArmable(ts[..j + 1])
  {
    assert forall i :: 0 <= i < j ==> ts[..j + 1][i] == ts[..j][i];
  }

  /** The index of the first timer of the table that cannot be armed, or
      the table's length when every one can. */
  function FirstUnarmable(ts: seq<TimerEntry>): (j: nat)
    ensures j <= |ts| && AllArmable(ts[..j])
    ensures j < |ts| ==> ArmFails(ts[j].spec)
    ensures j == |ts| <==> AllArmable(ts)
  {
    if ts == [] then 0
    else if ArmFails(ts[0].spec) then 0
    else
      var j := 1 + FirstUnarmable(ts[1..]);
      assert forall i :: 1 <= i < j ==> ts[..j][i] == ts[1..][..j - 1][i - 1];
      assert forall i :: 1 <= i < |ts| ==> ts[i] == ts[1..][i - 1];
      assert AllArmable(ts) ==> AllArmable(ts[1..]);
      j
  }

  /** The first failing entry is the one index whose predecessors all arm
      and which fails itself: the loop that stops there stopped at it. */
  lemma FirstUnarmableAt(ts: seq<TimerEntry>, j: nat)
    requires j < |ts| && AllArmable(ts[..j]) && ArmFails(ts[j].spec)
    ensures FirstUnarmable(ts) == j
  {
    var k := FirstUnarmable(ts);
    assert forall i :: 0 <= i < j ==> ts[..j][i] == ts[i];
    assert forall i :: 0 <= i < k ==> ts[..k][i] == ts[i];
  }

  /** A delay `d` drawn for a timer: the fixed delay itself, or any value
      in the inclusive range, as `random.randint` gives. */
  predicate Fits(d: int, delay: Delay)
  {
    match delay
    case Fixed(n) => d == n
    case Range(lo, hi) => lo <= d <= hi
  }

  /** `o` is an occurrence `register_timer` makes from the table: it is
      named after a key of the table, runs that timer with the spec's
      keyword arguments, and its delay fits the spec. */
  ghost predicate TimerOccurrence(o: Occurrence, timers: seq<TimerEntry>)
  {
    o.name.TimerName? && o.name.key in Keys(timers) &&
    o.action == RunTimerAction(o.name.key, Lookup(timers, o.name.key).value.kwargs) &&
    Fits(o.delay, Lookup(timers, o.name.key).value.delay)
  }

  /** Every waiting occurrence under one of the names `ns` is a timer
      occurrence of the table. */
  ghost predicate ArmedFrom(s: seq<Occurrence>, timers: seq<TimerEntry>, ns: set<SchedName>)
  {
    forall o: Occurrence :: o in s && o.name in ns ==> TimerOccurrence(o, timers)
  }

  /** The effect of one `send_package_method` call, apart from the delay
      drawn for a re-armed timer: what it sends, whether it enters
      `register_timer` for its own key, and what it returns or raises. */
  datatype Step = Step(sends: seq<Send>, rearmed: bool, result: Result<Reply>)

  function PackageMethod(objects: map<string, Handler>, timers: seq<TimerEntry>, body: Body,
                         c: Call, kwargs: Kwargs): Step
  {
    match Invoke(objects, body, c)
    case LookupFailed(e) => Step([], false, Raised(e))
    case HandlerFailed => Step([], false, Ok(NoReply))
    case Replied(r) =>
      var e := Normalize(r, kwargs);
      if e.error.Some? then Step(e.sends, false, Raised(e.error.value))
      else match Lookup(timers, TimerKey(c.alias, c.methodName))
        case None => Step(e.sends, false, Ok(r))
        case Some(spec) => Step(e.sends, true, if ArmFails(spec) then Raised(ValueError) else Ok(r))
  }

  /** `send_package_method`'s contract: a raising body gives None with no
      send and no re-arm; a failed lookup escapes; otherwise the reply is
      fanned out by `Normalize`, and a call that does not raise re-arms its
      own timer exactly when it has one, and returns the raw reply. */
  lemma PackageMethodSpec(objects: map<string, Handler>, timers: seq<TimerEntry>, body: Body,
                          c: Call, kwargs: Kwargs)
    ensures var st := PackageMethod(objects, timers, body, c, kwargs);
      (Invoke(objects, body, c) == HandlerFailed ==> st == Step([], false, Ok(NoReply))) &&
      (Invoke(objects, body, c).LookupFailed? ==> st == Step([], false, Raised(Invoke(objects, body, c).error))) &&
      (Invoke(objects, body, c).Replied? ==>
         st.sends == Normalize(Invoke(objects, body, c).reply, kwargs).sends &&
         (st.result.Ok? ==> st.result.value == Invoke(objects, body, c).reply) &&
         (st.result.Ok? ==> (st.rearmed <==> TimerKey(c.alias, c.methodName) in Keys(timers))) &&
         (Normalize(Invoke(objects, body, c).reply, kwargs).error.Some? ==>
            st.result == Raised(Normalize(Invoke(objects, body, c).reply, kwargs).error.value))) &&
      (st.rearmed ==> TimerKey(c.alias, c.methodName) in Keys(timers)) &&
      (st.sends != [] ==> Invoke(objects, body, c).Replied?) &&
      (st.rearmed ==> Invoke(objects, body, c).Replied? &&
                      Normalize(Invoke(objects, body, c).reply, kwargs).error.None?) &&
      (st.result.Ok? && st.result.value != NoReply ==> Invoke(objects, body, c).Replied?)
  {
  }

  /** `run_timer` calls `send_package_method(alias, method, **kwargs)`: a
      timer keyword named like one of that method's parameters binds the
      parameter twice, a TypeError raised before the handler is looked up. */
  predicate BindsTwice(kwargs: Kwargs)
  {
    "self" in kwargs || "package" in kwargs || "method" in kwargs
  }

  /** The `msg` and `match` entries of a timer's keyword arguments. */
  function Popped(kwargs: Kwargs): Kwargs
  {
    map k | k in kwargs && (k == "msg" || k == "match") :: kwargs[k]
  }

  /** The call a fired timer makes: no message and no match of its own,
      but the timer's `msg` and `match` entries handed to the handler. */
  function TimerCall(key: TimerKey, kwargs: Kwargs): Call
  {
    Call(key.alias, key.methodName, None, None, Popped(kwargs))
  }

  /** `send_package_method(alias, method, **kwargs)` for a timer: the
      parameters bound twice, or the call with `msg` and `match` popped
      from the keyword arguments that reach the sends. */
  function TimerStep(objects: map<string, Handler>, timers: seq<TimerEntry>, body: Body,
                     key: TimerKey, kwargs: Kwargs): Step
  {
    if BindsTwice(kwargs) then Step([], false, Raised(TypeError))
    else PackageMethod(objects, timers, body, TimerCall(key, kwargs), kwargs - {"msg", "match"})
  }

  /** A timer keyword `self`, `package` or `method` raises a TypeError with
      no handler call, no send and no re-arm. Otherwise the handler gets
      exactly the timer's `msg` and `match` entries, neither of them
      reaches the sends of a string reply, every other keyword does, and
      the timer is re-armed exactly when its handler replied and the fan-out
      raised nothing. */
  lemma TimerStepSpec(objects: map<string, Handler>, timers: seq<TimerEntry>, body: Body,
                      key: TimerKey, kwargs: Kwargs)
    ensures BindsTwice(kwargs) ==> TimerStep(objects, timers, body, key, kwargs) == Step([], false, Raised(TypeError))
    ensures !BindsTwice(kwargs) ==>
      forall k :: k in TimerCall(key, kwargs).popped <==> k in kwargs && (k == "msg" || k == "match")
    ensures !BindsTwice(kwargs) ==>
      forall k :: k in TimerCall(key, kwargs).popped ==> TimerCall(key, kwargs).popped[k] == kwargs[k]
    ensures var c := TimerCall(key, kwargs);
      !BindsTwice(kwargs) && Invoke(objects, body, c).Replied? && Invoke(objects, body, c).reply.Text? ==>
        forall i :: 0 <= i < |TimerStep(objects, timers, body, key, kwargs).sends| ==>
          var x := TimerStep(objects, timers, body, key, kwargs).sends[i].extra;
          "msg" !in x && "match" !in x &&
          forall k :: k in kwargs && k != "msg" && k != "match" && k != "mto" ==> k in x
    ensures var c := TimerCall(key, kwargs);
      !BindsTwice(kwargs) ==>
        (TimerStep(objects, timers, body, key, kwargs).rearmed <==>
           key in Keys(timers) && Invoke(objects, body, c).Replied? &&
           Normalize(Invoke(objects, body, c).reply, kwargs - {"msg", "match"}).error.None?)
  {
    var c := TimerCall(key, kwargs);
    if !BindsTwice(kwargs) {
      PackageMethodSpec(objects, timers, body, c, kwargs - {"msg", "match"});
    }
  }

  /** Everything a dispatch pass over a trigger list does: the sends; the
      indices of the entries whose handler was called; those whose result
      was truthy, with those results; the timer keys re-armed, in order;
      the key whose re-arming raised, which is then left unscheduled; and
      the escaping exception. */
  datatype Run = Run(
    sends: seq<Send>,
    called: seq<nat>,
    fired: seq<nat>,
    replies: seq<Reply>,
    rearmed: seq<TimerKey>,
    unarmed: Option<TimerKey>,
    error: Option<Exc>)

  const Idle: Run := Run([], [], [], [], [], None, None)

  function Then(a: Run, b: Run): Run
  {
    Run(a.sends + b.sends, a.called + b.called, a.fired + b.fired, a.replies + b.replies,
        a.rearmed + b.rearmed, b.unarmed, b.error)
  }

  /** One handler call at trigger index `i`, seen as a run. */
  function StepRun(i: nat, key: TimerKey, st: Step): (r: Run)
    ensures r.called == [i] && |r.fired| <= 1 && |r.replies| == |r.fired|
    ensures r.fired != [] ==> r.fired == [i] && Truthy(r.replies[0])
    ensures r.error.None? ==> r.unarmed.None?
  {
    var truthy := st.result.Ok? && Truthy(st.result.value);
    Run(st.sends, [i],
        if truthy then [i] else [],
        if truthy then [st.result.value] else [],
        if st.rearmed && st.result.Ok? then [key] else [],
        if st.rearmed && st.result.Raised? then Some(key) else None,
        if st.result.Raised? then Some(st.result.error) else None)
  }

  /** The scheduler names of timer keys. */
  ghost function TimerNames(ks: seq<TimerKey>): set<SchedName>
  {
    set k | k in ks :: TimerName(k)
  }

  /** The scheduler names a run re-arms or leaves unarmed. */
  ghost function Touched(r: Run): set<SchedName>
  {
    TimerNames(r.rearmed) + (if r.unarmed.Some? then {TimerName(r.unarmed.value)} else {})
  }

  /** A run's effect on the client, for the timer table `timers`: its
      sends appended; each re-armed key removed and scheduled once more
      (an accepted `schedule` call each), its waiting occurrence fitting
      its spec and running it with the spec's keyword arguments; the key
      whose re-arming raised removed and not scheduled again; every other
      occurrence kept as it was. */
  ghost predicate Applied(c0: Snapshot, c1: Snapshot, r: Run, timers: seq<TimerEntry>)
  {
    c1.sent == c0.sent + r.sends &&
    c1.schedules == c0.schedules + SchedNames(r.rearmed) &&
    NameSet(c1.scheduler) == NameSet(c0.scheduler) + TimerNames(r.rearmed)
                             - (if r.unarmed.Some? then {TimerName(r.unarmed.value)} else {}) &&
    Keeps(c0.scheduler, c1.scheduler, Touched(r)) &&
    ArmedFrom(c1.scheduler, timers, TimerNames(r.rearmed)) &&
    c1.joined == c0.joined
  }

  function SchedNames(ks: seq<TimerKey>): (ns: seq<SchedName>)
    ensures |ns| == |ks|
    ensures forall i :: 0 <= i < |ks| ==> ns[i] == TimerName(ks[i])
  {
    if ks == [] then [] else [TimerName(ks[0])] + SchedNames(ks[1..])
  }

  /** The effect of one call, from what it did to the client: its sends;
      the scheduler untouched when it re-arms nothing; its key scheduled
      again, or left unscheduled when re-arming raised. */
  lemma AppliedStep(c0: Snapshot, c1: Snapshot, i: nat, key: TimerKey, st: Step, timers: seq<TimerEntry>)
    requires c1.sent == c0.sent + st.sends && c1.joined == c0.joined
    requires !st.rearmed ==> c1.scheduler == c0.scheduler && c1.schedules == c0.schedules
    requires st.rearmed && st.result.Ok? ==>
      c1.schedules == c0.schedules + [TimerName(key)] &&
      NameSet(c1.scheduler) == NameSet(c0.scheduler) + {TimerName(key)} &&
      Keeps(c0.scheduler, c1.scheduler, {TimerName(key)}) &&
      ArmedFrom(c1.scheduler, timers, {TimerName(key)})
    requires st.rearmed && st.result.Raised? ==>
      c1.schedules == c0.schedules &&
      NameSet(c1.scheduler) == NameSet(c0.scheduler) - {TimerName(key)} &&
      Keeps(c0.scheduler, c1.scheduler, {TimerName(key)})
    ensures Applied(c0, c1, StepRun(i, key, st), timers)
  {
    var r := StepRun(i, key, st);
    if st.rearmed && st.result.Ok? {
      assert r.rearmed == [key] && r.unarmed.None?;
      assert SchedNames(r.rearmed) == [TimerName(key)];
      assert TimerNames(r.rearmed) == {TimerName(key)};
      assert Touched(r) == {TimerName(key)};
    } else {
      assert r.rearmed == [];
      assert SchedNames(r.rearmed) == [] && TimerNames(r.rearmed) == {};
      if st.rearmed {
        assert Touched(r) == {TimerName(key)};
      }
    }
  }

  /** Effects compose along `Then`, as long as the first run did not stop. */
  lemma AppliedThen(c0: Snapshot, c1: Snapshot, c2: Snapshot, a: Run, b: Run, timers: seq<TimerEntry>)
    requires Applied(c0, c1, a, timers) && Applied(c1, c2, b, timers) && a.unarmed.None?
    ensures Applied(c0, c2, Then(a, b), timers)
  {
    ConcatAssoc(c0.sent, a.sends, b.sends);
    ConcatAssoc(c0.schedules, SchedNames(a.rearmed), SchedNames(b.rearmed));
    SchedNamesConcat(a.rearmed, b.rearmed);
    NameSetThen(c0.scheduler, c1.scheduler, c2.scheduler, a, b);
    KeptThen(c0.scheduler, c1.scheduler, c2.scheduler, a, b, timers);
  }

  /** The untouched occurrences and the re-armed keys of two consecutive
      runs: what the first armed survives the second unless the second
      touches it, and the second cannot leave its unarmed key waiting. */
  lemma KeptThen(s0: seq<Occurrence>, s1: seq<Occurrence>, s2: seq<Occurrence>, a: Run, b: Run, timers: seq<TimerEntry>)
    requires a.unarmed.None?
    requires Keeps(s0, s1, Touched(a)) && Keeps(s1, s2, Touched(b))
    requires ArmedFrom(s1, timers, TimerNames(a.rearmed)) && ArmedFrom(s2, timers, TimerNames(b.rearmed))
    requires b.unarmed.Some? ==> TimerName(b.unarmed.value) !in NameSet(s2)
    ensures Keeps(s0, s2, Touched(Then(a, b)))
    ensures ArmedFrom(s2, timers, TimerNames(Then(a, b).rearmed))
  {
    assert TimerNames(a.rearmed + b.rearmed) == TimerNames(a.rearmed) + TimerNames(b.rearmed);
    assert Touched(Then(a, b)) == Touched(a) + Touched(b);
    forall o: Occurrence | o in s2 && o.name in TimerNames(Then(a, b).rearmed)
      ensures TimerOccurrence(o, timers)
    {
      if o.name !in TimerNames(b.rearmed) {
        var i :| 0 <= i < |s2| && s2[i] == o;
        assert o.name in NameSet(s2);
        assert o.name !in Touched(b);
      }
    }
  }

  /** A run that sends nothing and touches no timer leaves the client as
      it was. */
  lemma AppliedQuiet(c: Snapshot, r: Run, timers: seq<TimerEntry>)
    requires r.sends == [] && r.rearmed == [] && r.unarmed.None?
    ensures Applied(c, c, r, timers)
  {
    assert SchedNames(r.rearmed) == [] && TimerNames(r.rearmed) == {};
  }

  /** A pass whose remaining part is idle has had all its effect. */
  lemma AppliedDone(c0: Snapshot, c1: Snapshot, acc: Run, total: Run, timers: seq<TimerEntry>)
    requires Applied(c0, c1, acc, timers) && acc.unarmed.None? && total == Then(acc, Idle)
    ensures Applied(c0, c1, total, timers)
  {
    AppliedQuiet(c1, Idle, timers);
    AppliedThen(c0, c1, c1, acc, Idle, timers);
  }

  lemma ThenAssoc(a: Run, b: Run, c: Run)
    ensures Then(Then(a, b), c) == Then(a, Then(b, c))
  {
    ConcatAssoc(a.sends, b.sends, c.sends);
    ConcatAssoc(a.called, b.called, c.called);
    ConcatAssoc(a.fired, b.fired, c.fired);
    ConcatAssoc(a.replies, b.replies, c.replies);
    ConcatAssoc(a.rearmed, b.rearmed, c.rearmed);
  }

  lemma ConcatAssoc<T>(x: seq<T>, y: seq<T>, z: seq<T>)
    ensures (x + y) + z == x + (y + z)
  {
  }

  lemma SchedNamesConcat(a: seq<TimerKey>, b: seq<TimerKey>)
    ensures SchedNames(a + b) == SchedNames(a) + SchedNames(b)
  {
  }

  lemma NameSetThen(s0: seq<Occurrence>, s1: seq<Occurrence>, s2: seq<Occurrence>, a: Run, b: Run)
    requires NameSet(s1) == NameSet(s0) + TimerNames(a.rearmed)
    requires NameSet(s2) == NameSet(s1) + TimerNames(b.rearmed) - (if b.unarmed.Some? then {TimerName(b.unarmed.value)} else {})
    ensures NameSet(s2) == NameSet(s0) + TimerNames(a.rearmed + b.rearmed) - (if b.unarmed.Some? then {TimerName(b.unarmed.value)} else {})
  {
    assert TimerNames(a.rearmed + b.rearmed) == TimerNames(a.rearmed) + TimerNames(b.rearmed);
  }

  /** The dispatcher's tables and collaborators, as one dispatch pass sees them. */
  datatype Env = Env(
    objects: map<string, Handler>,
    timers: seq<TimerEntry>,
    body: Body,
    pats: Patterns,
    nickname: string)

  /** `run_command` and `run_commentator` reply into the room as groupchat. */
  function GroupchatKwargs(msg: Msg): Kwargs
  {
    map["mto" := msg.mucroom, "mtype" := "groupchat"]
  }

  /** `run_private_command` replies to the sender, with no `mtype`. */
  function PrivateKwargs(msg: Msg): Kwargs
  {
    map["mto" := msg.from]
  }

  /** The call a trigger makes when its pattern matched. */
  function TriggerStep(env: Env, t: Trigger, msg: Msg, m: Match, kwargs: Kwargs): Step
  {
    PackageMethod(env.objects, env.timers, env.body,
                  Call(t.alias, t.methodName, Some(msg), Some(m), map[]), kwargs)
  }

  function KeyOf(t: Trigger): TimerKey
  {
    TimerKey(t.alias, t.methodName)
  }

  /** What trying one trigger gives: its pattern fails to render or
      compile (the exception escapes), it does not match, or its handler
      is called, with the run of that one call. A trigger's slot depends
      only on the tables and the message, not on the triggers before it. */
  datatype Slot = Invalid | Unmatched | Answered(h: Run)

  /** The shape of the run of one handler call at index `i`. */
  ghost predicate Answer(h: Run, i: nat)
  {
    h.called == [i] && |h.fired| <= 1 && |h.replies| == |h.fired| &&
    (h.fired != [] ==> h.fired == [i] && Truthy(h.replies[0])) &&
    (h.error.None? ==> h.unarmed.None?)
  }

  ghost predicate WellSlots(ss: seq<Slot>)
  {
    forall i :: 0 <= i < |ss| && ss[i].Answered? ==> Answer(ss[i].h, i)
  }

  /** The slot of trigger `i`, its pattern rendered against `nick` (`None`:
      used raw), its replies sent with `kwargs`. */
  function SlotAt(env: Env, ts: seq<Trigger>, i: nat, nick: Option<string>, msg: Msg, kwargs: Kwargs): (s: Slot)
    requires i < |ts|
    ensures s.Invalid? <==> !env.pats.valid(ts[i].pattern, nick)
    ensures s.Unmatched? <==> env.pats.valid(ts[i].pattern, nick) && env.pats.search(ts[i].pattern, nick, msg.body).None?
    ensures s.Answered? ==> Answer(s.h, i)
  {
    var t := ts[i];
    if !env.pats.valid(t.pattern, nick) then Invalid
    else match env.pats.search(t.pattern, nick, msg.body)
      case None => Unmatched
      case Some(m) => Answered(StepRun(i, KeyOf(t), TriggerStep(env, t, msg, m, kwargs)))
  }

  function Slots(env: Env, ts: seq<Trigger>, nick: Option<string>, msg: Msg, kwargs: Kwargs): (ss: seq<Slot>)
    ensures |ss| == |ts| && WellSlots(ss)
    ensures forall i :: 0 <= i < |ts| ==> ss[i] == SlotAt(env, ts, i, nick, msg, kwargs)
  {
    seq(|ts|, i requires 0 <= i < |ts| => SlotAt(env, ts, i, nick, msg, kwargs))
  }

  /** `ss` holds the slots of `ts` from index `i` on, one index at a
      time (the form a loop over the triggers consumes). */
  ghost predicate SlotsFrom(ss: seq<Slot>, env: Env, ts: seq<Trigger>, nick: Option<string>,
                            msg: Msg, kwargs: Kwargs, i: nat)
    decreases |ts| - i
  {
    |ss| == |ts| &&
    (i < |ts| ==> ss[i] == SlotAt(env, ts, i, nick, msg, kwargs) && SlotsFrom(ss, env, ts, nick, msg, kwargs, i + 1))
  }

  lemma {:induction false} SlotsAreSlotsFrom(env: Env, ts: seq<Trigger>, nick: Option<string>,
                                             msg: Msg, kwargs: Kwargs, i: nat)
    ensures SlotsFrom(Slots(env, ts, nick, msg, kwargs), env, ts, nick, msg, kwargs, i)
    decreases |ts| - i
  {
    if i < |ts| {
      SlotsAreSlotsFrom(env, ts, nick, msg, kwargs, i + 1);
    }
  }

  const Failed: Run := Run([], [], [], [], [], None, Some(PatternError))

  /** `run_command`'s loop from slot `i` with `matched` truthy answers so
      far: stop once `matched` reaches the cap, checked before each entry;
      count only truthy answers. */
  function CappedRun(ss: seq<Slot>, i: nat, matched: int, maxMatch: int): Run
    decreases |ss| - i
  {
    if i >= |ss| || matched >= maxMatch then Idle
    else match ss[i]
      case Invalid => Failed
      case Unmatched => CappedRun(ss, i + 1, matched, maxMatch)
      case Answered(h) =>
        if h.error.Some? then h
        else Then(h, CappedRun(ss, i + 1, matched + |h.fired|, maxMatch))
  }

  /** `run_commentator`'s loop: the first truthy answer ends it. */
  function FirstRun(ss: seq<Slot>, i: nat): Run
    decreases |ss| - i
  {
    if i >= |ss| then Idle
    else match ss[i]
      case Invalid => Failed
      case Unmatched => FirstRun(ss, i + 1)
      case Answered(h) =>
        if h.error.Some? || h.fired != [] then h
        else Then(h, FirstRun(ss, i + 1))
  }

  /** `run_private_command`'s loop: every matching entry, no cap. */
  function EveryRun(ss: seq<Slot>, i: nat): Run
    decreases |ss| - i
  {
    if i >= |ss| then Idle
    else match ss[i]
      case Invalid => Failed
      case Unmatched => EveryRun(ss, i + 1)
      case Answered(h) =>
        if h.error.Some? then h
        else Then(h, EveryRun(ss, i + 1))
  }

  /** What the dispatcher sees of a handler call: whether it raised, and
      whether its reply was truthy (then it is the one reply recorded). */
  ghost predicate Reports(h: Run, r: Result<Reply>)
  {
    (r.Raised? <==> h.error.Some?) && (r.Raised? ==> h.error == Some(r.error)) &&
    (h.fired != [] <==> r.Ok? && Truthy(r.value)) && |h.fired| <= 1 &&
    (h.fired != [] ==> h.replies == [r.value])
  }

  /** A call counts towards the cap exactly when its reply is truthy. */
  lemma FiredCount(h: Run, r: Result<Reply>)
    requires Reports(h, r) && r.Ok?
    ensures |h.fired| == if Truthy(r.value) then 1 else 0
  {
  }

  /** A call's effect does not depend on its index in the pass, and the
      dispatcher sees its result. */
  lemma StepRunAt(c0: Snapshot, c1: Snapshot, i: nat, key: TimerKey, st: Step, timers: seq<TimerEntry>)
    requires Applied(c0, c1, StepRun(0, key, st), timers)
    ensures Applied(c0, c1, StepRun(i, key, st), timers) && Reports(StepRun(i, key, st), st.result)
  {
    assert StepRun(i, key, st).rearmed == StepRun(0, key, st).rearmed;
    assert StepRun(i, key, st).unarmed == StepRun(0, key, st).unarmed;
  }

  /** The loop invariant of `run_command`, carried over one trigger:
      `total` is what has run so far followed by the rest of the pass. */
  lemma CappedRunAdvance(ss: seq<Slot>, i: nat, matched: int, maxMatch: int, acc: Run, total: Run)
    requires i < |ss| && matched < maxMatch && total == Then(acc, CappedRun(ss, i, matched, maxMatch))
    ensures ss[i].Unmatched? ==> total == Then(acc, CappedRun(ss, i + 1, matched, maxMatch))
    ensures ss[i].Answered? && ss[i].h.error.None? ==>
      total == Then(Then(acc, ss[i].h), CappedRun(ss, i + 1, matched + |ss[i].h.fired|, maxMatch))
    ensures ss[i].Answered? && ss[i].h.error.Some? ==> total == Then(acc, ss[i].h)
    ensures ss[i].Invalid? ==> total == Then(acc, Failed)
  {
    if ss[i].Answered? && ss[i].h.error.None? {
      ThenAssoc(acc, ss[i].h, CappedRun(ss, i + 1, matched + |ss[i].h.fired|, maxMatch));
    }
  }

  /** A call that returned carries the pass on, counting one match when
      its reply is truthy. */
  lemma CappedRunAnswered(ss: seq<Slot>, i: nat, matched: int, maxMatch: int, acc: Run, total: Run, r: Result<Reply>)
    requires i < |ss| && matched < maxMatch && total == Then(acc, CappedRun(ss, i, matched, maxMatch))
    requires ss[i].Answered? && Reports(ss[i].h, r) && r.Ok?
    ensures total == Then(Then(acc, ss[i].h), CappedRun(ss, i + 1, matched + (if Truthy(r.value) then 1 else 0), maxMatch))
  {
    CappedRunAdvance(ss, i, matched, maxMatch, acc, total);
    FiredCount(ss[i].h, r);
  }

  /** The loop invariant of `run_commentator`, carried over one trigger. */
  lemma FirstRunAdvance(ss: seq<Slot>, i: nat, acc: Run, total: Run)
    requires i < |ss| && total == Then(acc, FirstRun(ss, i))
    ensures ss[i].Unmatched? ==> total == Then(acc, FirstRun(ss, i + 1))
    ensures ss[i].Answered? && ss[i].h.error.None? && ss[i].h.fired == [] ==>
      total == Then(Then(acc, ss[i].h), FirstRun(ss, i + 1))
    ensures ss[i].Answered? && (ss[i].h.error.Some? || ss[i].h.fired != []) ==> total == Then(acc, ss[i].h)
    ensures ss[i].Invalid? ==> total == Then(acc, Failed)
  {
    if ss[i].Answered? && ss[i].h.error.None? && ss[i].h.fired == [] {
      ThenAssoc(acc, ss[i].h, FirstRun(ss, i + 1));
    }
  }

  /** The loop invariant of `run_private_command`, carried over one trigger. */
  lemma EveryRunAdvance(ss: seq<Slot>, i: nat, acc: Run, total: Run)
    requires i < |ss| && total == Then(acc, EveryRun(ss, i))
    ensures ss[i].Unmatched? ==> total == Then(acc, EveryRun(ss, i + 1))
    ensures ss[i].Answered? && ss[i].h.error.None? ==> total == Then(Then(acc, ss[i].h), EveryRun(ss, i + 1))
    ensures ss[i].Answered? && ss[i].h.error.Some? ==> total == Then(acc, ss[i].h)
    ensures ss[i].Invalid? ==> total == Then(acc, Failed)
  {
    if ss[i].Answered? && ss[i].h.error.None? {
      ThenAssoc(acc, ss[i].h, EveryRun(ss, i + 1));
    }
  }

  /** The indices from `i` on whose trigger matches. */
  function Matching(ss: seq<Slot>, i: nat): (r: seq<nat>)
    ensures forall k :: 0 <= k < |r| ==> i <= r[k] < |ss| && ss[r[k]].Answered?
    decreases |ss| - i
  {
    if i >= |ss| then []
    else (if ss[i].Answered? then [i] else []) + Matching(ss, i + 1)
  }

  /** `run_command`: the patterns rendered with the current nickname,
      replies into the room as groupchat. */
  function CommandSlots(env: Env, cmds: seq<Trigger>, msg: Msg): seq<Slot>
  {
    Slots(env, cmds, Some(env.nickname), msg, GroupchatKwargs(msg))
  }

  /** `run_commentator`: like `run_command`, the patterns rendered with
      the current nickname, replies into the room as groupchat. */
  function CommentSlots(env: Env, cmts: seq<Trigger>, msg: Msg): seq<Slot>
  {
    Slots(env, cmts, Some(env.nickname), msg, GroupchatKwargs(msg))
  }

  /** `run_private_command`: raw patterns, replies to the sender. */
  function PrivateSlots(env: Env, cmds: seq<Trigger>, msg: Msg): seq<Slot>
  {
    Slots(env, cmds, None, msg, PrivateKwargs(msg))
  }

  /** What `run_listener` does from listener `i`: the indices of the
      listeners called, and the lookup failure that stopped it, if any. */
  datatype Heard = Heard(called: seq<nat>, error: Option<Exc>)

  /** Every listener is called in order with the message and no match; a
      body's exception is caught, a failed lookup escapes. */
  function ListenerRun(objects: map<string, Handler>, body: Body, ls: seq<ListenerEntry>, i: nat, msg: Msg): Heard
    decreases |ls| - i
  {
    if i >= |ls| then Heard([], None)
    else match Invoke(objects, body, Call(ls[i].alias, ls[i].methodName, Some(msg), None, map[]))
      case LookupFailed(e) => Heard([], Some(e))
      case _ =>
        var rest := ListenerRun(objects, body, ls, i + 1, msg);
        Heard([i] + rest.called, rest.error)
  }

  // ---------------------------------------------------------------------
  // Properties of the dispatch passes

  /** At most `commands_max_match` handlers answer truthily per message,
      every answer counted is truthy, and an answer implies a call. */
  lemma {:induction false} CappedRunCap(ss: seq<Slot>, i: nat, matched: int, maxMatch: int)
    requires WellSlots(ss)
    ensures matched < maxMatch ==> |CappedRun(ss, i, matched, maxMatch).fired| <= maxMatch - matched
    ensures matched >= maxMatch ==> CappedRun(ss, i, matched, maxMatch) == Idle
    ensures |CappedRun(ss, i, matched, maxMatch).replies| == |CappedRun(ss, i, matched, maxMatch).fired|
    ensures forall k :: 0 <= k < |CappedRun(ss, i, matched, maxMatch).replies| ==>
      Truthy(CappedRun(ss, i, matched, maxMatch).replies[k])
    ensures CappedRun(ss, i, matched, maxMatch).fired != [] ==> CappedRun(ss, i, matched, maxMatch).called != []
    decreases |ss| - i
  {
    if i < |ss| && matched < maxMatch {
      match ss[i]
      case Invalid =>
      case Unmatched =>
        CappedRunCap(ss, i + 1, matched, maxMatch);
      case Answered(h) =>
        if h.error.None? {
          var r := CappedRun(ss, i, matched, maxMatch);
          var rest := CappedRun(ss, i + 1, matched + |h.fired|, maxMatch);
          CappedRunCap(ss, i + 1, matched + |h.fired|, maxMatch);
          forall k | 0 <= k < |r.replies| ensures Truthy(r.replies[k]) {
            if k >= |h.replies| { assert r.replies[k] == rest.replies[k - |h.replies|]; }
          }
        }
    }
  }

  /** Once the cap is reached no further handler is called: the last
      handler called is the one whose answer reached the cap. */
  lemma {:induction false} CappedRunStopsAtCap(ss: seq<Slot>, i: nat, matched: int, maxMatch: int)
    requires WellSlots(ss)
    requires CappedRun(ss, i, matched, maxMatch).fired != []
    requires matched + |CappedRun(ss, i, matched, maxMatch).fired| == maxMatch
    ensures CappedRun(ss, i, matched, maxMatch).called != []
    ensures Last(CappedRun(ss, i, matched, maxMatch).called) == Last(CappedRun(ss, i, matched, maxMatch).fired)
    decreases |ss| - i
  {
    var r := CappedRun(ss, i, matched, maxMatch);
    match ss[i]
    case Unmatched =>
      CappedRunStopsAtCap(ss, i + 1, matched, maxMatch);
    case Answered(h) =>
      var rest := CappedRun(ss, i + 1, matched + |h.fired|, maxMatch);
      if h.error.None? {
        if rest.fired != [] {
          CappedRunStopsAtCap(ss, i + 1, matched + |h.fired|, maxMatch);
          assert Last(r.called) == Last(rest.called);
          assert Last(r.fired) == Last(rest.fired);
        } else {
          CappedRunCap(ss, i + 1, matched + |h.fired|, maxMatch);
          assert r.called == [i];
        }
      }
  }

  function Last(s: seq<nat>): nat
    requires s != []
  {
    s[|s| - 1]
  }

  /** Below the cap and without an exception, every handler whose trigger
      matches is called, in registration order: a falsy answer does not
      stop the pass. */
  lemma {:induction false} CappedRunCallsAllMatching(ss: seq<Slot>, i: nat, matched: int, maxMatch: int)
    requires WellSlots(ss)
    requires CappedRun(ss, i, matched, maxMatch).error.None?
    requires matched + |CappedRun(ss, i, matched, maxMatch).fired| < maxMatch
    ensures CappedRun(ss, i, matched, maxMatch).called == Matching(ss, i)
    decreases |ss| - i
  {
    if i < |ss| {
      match ss[i]
      case Unmatched =>
        CappedRunCallsAllMatching(ss, i + 1, matched, maxMatch);
      case Answered(h) =>
        var rest := CappedRun(ss, i + 1, matched + |h.fired|, maxMatch);
        assert CappedRun(ss, i, matched, maxMatch) == Then(h, rest);
        assert Answer(h, i);
        CappedRunCallsAllMatching(ss, i + 1, matched + |h.fired|, maxMatch);
        assert Matching(ss, i) == [i] + Matching(ss, i + 1);
    }
  }

  /** At most one commentator answers per message; if one does, it is the
      last one called and its answer is truthy; if none does (and nothing
      escaped), every matching commentator was called. */
  lemma {:induction false} FirstRunAtMostOne(ss: seq<Slot>, i: nat)
    requires WellSlots(ss)
    ensures |FirstRun(ss, i).fired| <= 1
    ensures |FirstRun(ss, i).replies| == |FirstRun(ss, i).fired|
    ensures FirstRun(ss, i).fired != [] ==>
      FirstRun(ss, i).called != [] && FirstRun(ss, i).fired[0] == Last(FirstRun(ss, i).called) &&
      Truthy(FirstRun(ss, i).replies[0])
    ensures FirstRun(ss, i).error.None? && FirstRun(ss, i).fired == [] ==> FirstRun(ss, i).called == Matching(ss, i)
    decreases |ss| - i
  {
    if i < |ss| {
      FirstRunAtMostOne(ss, i + 1);
      match ss[i]
      case Invalid =>
      case Unmatched =>
        assert FirstRun(ss, i) == FirstRun(ss, i + 1) && Matching(ss, i) == Matching(ss, i + 1);
      case Answered(h) =>
        assert Answer(h, i);
        if h.error.None? && h.fired == [] {
          var rest := FirstRun(ss, i + 1);
          assert FirstRun(ss, i) == Then(h, rest);
          assert Matching(ss, i) == [i] + Matching(ss, i + 1);
          if rest.fired != [] {
            assert Last(h.called + rest.called) == Last(rest.called);
          }
        }
    }
  }

  /** Private commands have no cap: without an exception every matching
      entry is called, whatever the earlier ones answered. */
  lemma {:induction false} EveryRunCallsAllMatching(ss: seq<Slot>, i: nat)
    requires WellSlots(ss)
    requires EveryRun(ss, i).error.None?
    ensures EveryRun(ss, i).called == Matching(ss, i)
    decreases |ss| - i
  {
    if i < |ss| {
      EveryRunCallsAllMatching(ss, i + 1);
    }
  }

  /** Without a failed lookup every listener is called, in order, and what
      the handlers do (return or raise) makes no difference. */
  lemma {:induction false} ListenerRunCallsAll(objects: map<string, Handler>, body: Body, other: Body,
                                               ls: seq<ListenerEntry>, i: nat, msg: Msg)
    requires i <= |ls|
    ensures ListenerRun(objects, body, ls, i, msg) == ListenerRun(objects, other, ls, i, msg)
    ensures ListenerRun(objects, body, ls, i, msg).error.None? ==>
      ListenerRun(objects, body, ls, i, msg).called == Range(i, |ls|)
    decreases |ls| - i
  {
    if i < |ls| {
      ListenerRunCallsAll(objects, body, other, ls, i + 1, msg);
    }
  }

  /** The indices `lo, lo + 1, ..., hi - 1`. */
  function Range(lo: nat, hi: nat): (r: seq<nat>)
    requires lo <= hi
    ensures |r| == hi - lo
    ensures forall k :: 0 <= k < |r| ==> r[k] == lo + k
    decreases hi - lo
  {
    if lo == hi then [] else [lo] + Range(lo + 1, hi)
  }
}
