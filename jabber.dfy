/** `MucChatBot` (mtj/jibber/jabber.py): the dispatcher's tables, their
    (re)configuration from the package descriptors, timer arming, the four
    dispatch paths and reply normalisation, as a class whose methods update
    its fields and its client in place. Each method is proved against the
    pure specifications of modules Replies, Tables and Dispatch. */
module Jabber {
  import opened Common
  import opened Markup
  import opened Replies
  import opened Tables
  import opened Transport
  import opened Dispatch

  /** `register_timer`'s effect on the scheduler when it succeeds: any
      occurrence of the key's name is removed and one new occurrence, with
      a delay that fits the spec, is appended. */
  ghost predicate ArmedWith(s0: seq<Occurrence>, s1: seq<Occurrence>, key: TimerKey, spec: TimerSpec)
  {
    exists d :: Fits(d, spec.delay) &&
      s1 == RemoveFirst(s0, TimerName(key)) + [Occurrence(TimerName(key), d, RunTimerAction(key, spec.kwargs))]
  }

  /** After arming, the key has exactly one waiting occurrence, and its
      delay fits the spec. */
  lemma ArmedOnce(s0: seq<Occurrence>, s1: seq<Occurrence>, key: TimerKey, spec: TimerSpec)
    requires DistinctNames(s0) && ArmedWith(s0, s1, key, spec)
    ensures |s1| > 0 && s1[|s1| - 1].name == TimerName(key) && Fits(s1[|s1| - 1].delay, spec.delay)
    ensures forall i :: 0 <= i < |s1| - 1 ==> s1[i].name != TimerName(key)
  {
    var d :| Fits(d, spec.delay) &&
      s1 == RemoveFirst(s0, TimerName(key)) + [Occurrence(TimerName(key), d, RunTimerAction(key, spec.kwargs))];
    var r := RemoveFirst(s0, TimerName(key));
    RemoveFirstNames(s0, TimerName(key));
    assert !IsScheduled(r, TimerName(key));
    forall i | 0 <= i < |s1| - 1 ensures s1[i].name != TimerName(key) {
      assert s1[i] == r[i] && r[i].name == s1[i].name;
    }
  }

  /** One turn of `clear_timers`: removing the next key's name from the
      scheduler filtered by the earlier keys' names filters it by all of
      them. */
  lemma ClearStep(s0: seq<Occurrence>, cur: seq<Occurrence>, ks: seq<TimerKey>, i: nat)
    requires i < |ks| && DistinctNames(cur) && cur == Without(s0, TimerNames(ks[..i]))
    ensures RemoveFirst(cur, TimerName(ks[i])) == Without(s0, TimerNames(ks[..i + 1]))
    ensures TimerNames(ks[..i + 1]) == TimerNames(ks[..i]) + {TimerName(ks[i])}
  {
    assert ks[..i + 1] == ks[..i] + [ks[i]];
    assert TimerNames(ks[..i + 1]) == TimerNames(ks[..i]) + {TimerName(ks[i])};
    RemoveFirstIsWithout(cur, TimerName(ks[i]));
    WithoutWithout(s0, TimerNames(ks[..i]), {TimerName(ks[i])});
  }

  /** The keys of a table prefix grow by one entry's key at a time. */
  lemma KeysPrefixSnoc(timers: seq<TimerEntry>, j: nat)
    requires j < |timers|
    ensures Keys(timers)[..j + 1] == Keys(timers)[..j] + [timers[j].key]
  {
    PrefixSnoc(Keys(timers), j);
  }

  lemma PrefixSnoc<T>(s: seq<T>, j: nat)
    requires j < |s|
    ensures s[..j + 1] == s[..j] + [s[j]]
  {
  }

  lemma KeyNamesSnoc(log: seq<SchedName>, ks: seq<TimerKey>, k: TimerKey)
    ensures log + SchedNames(ks + [k]) == (log + SchedNames(ks)) + [TimerName(k)]
    ensures TimerNames(ks + [k]) == TimerNames(ks) + {TimerName(k)}
  {
    SchedNamesConcat(ks, [k]);
    ConcatAssoc(log, SchedNames(ks), [TimerName(k)]);
  }

  /** The bounded commentary deque: append, dropping the oldest entries
      beyond `maxlen`. */
  function Window(q: seq<Reply>, x: Reply, maxlen: nat): (w: seq<Reply>)
    requires maxlen > 0
  {
    var full := q + [x];
    if |full| <= maxlen then full else full[|full| - maxlen..]
  }

  /** The window never exceeds its bound, ends with the newest entry, and
      keeps the newest entries of the old contents, in order. */
  lemma WindowBounded(q: seq<Reply>, x: Reply, maxlen: nat)
    requires maxlen > 0
    ensures |Window(q, x, maxlen)| == if |q| + 1 <= maxlen then |q| + 1 else maxlen
    ensures Window(q, x, maxlen)[|Window(q, x, maxlen)| - 1] == x
    ensures Window(q, x, maxlen)[..|Window(q, x, maxlen)| - 1] == q[|q| + 1 - |Window(q, x, maxlen)|..]
  {
    var full := q + [x];
    var w := Window(q, x, maxlen);
    assert w == full[|full| - |w|..];
    assert w[..|w| - 1] == full[|full| - |w|..|full| - 1];
  }

  class MucChatBot {
    /** The bot's nickname in rooms; patterns are rendered against it. */
    var nickname: string
    var commandsMaxMatch: int
    var commentaryQsize: int
    /** The bound of the current commentary deque: the `commentary_qsize`
        it was last created with, which a rejected size does not change. */
    var commentaryMaxlen: int
    var objects: map<string, Handler>
    var privateCommands: seq<Trigger>
    var commands: seq<Trigger>
    var listeners: seq<ListenerEntry>
    var commentators: seq<Trigger>
    var timers: seq<TimerEntry>
    /** Recent truthy commentary replies, oldest first. */
    var commentary: seq<Reply>
    const client: Client
    const regex: Patterns

    ghost predicate Valid()
      reads this, client
    {
      client.Valid() && DistinctKeys(timers) &&
      0 < commentaryMaxlen && |commentary| <= commentaryMaxlen
    }

    function Registered(): Registry
      reads this
    {
      Registry(objects, privateCommands, commands, listeners, commentators, timers)
    }

    function Env(body: Body): Env
      reads this
    {
      Dispatch.Env(objects, timers, body, regex, nickname)
    }

    /** A bot loaded with no packages and the default settings: empty
        tables, a match cap of 1 and an empty commentary deque of size 2. */
    constructor (nickname: string, client: Client, regex: Patterns)
      requires client.Valid()
      ensures Valid()
      ensures this.nickname == nickname && this.client == client && this.regex == regex
      ensures Registered() == EmptyRegistry && commentary == []
      ensures commandsMaxMatch == 1 && commentaryQsize == 2 && commentaryMaxlen == 2
    {
      this.nickname := nickname;
      this.client := client;
      this.regex := regex;
      commandsMaxMatch, commentaryQsize, commentaryMaxlen := 1, 2, 2;
      objects := map[];
      privateCommands, commands, listeners, commentators, timers := [], [], [], [], [];
      commentary := [];
    }

    /** `send_message(**response)`: exactly one client send, of the text
        or HTML body that `Replies.SendMessage` describes, or an exception
        and no send. */
    method SendMessage(response: Kwargs) returns (error: Option<Exc>)
      modifies client
      ensures SendResponse(response).Ok? ==> error.None? && client.sent == old(client.sent) + [SendResponse(response).value]
      ensures SendResponse(response).Raised? ==> error == Some(SendResponse(response).error) && client.sent == old(client.sent)
      ensures client.scheduler == old(client.scheduler) && client.schedules == old(client.schedules)
      ensures client.joined == old(client.joined)
    {
      if "raw" !in response || "mto" !in response || "self" in response {
        return Some(TypeError);
      }
      var raw, mto := response["raw"], response["mto"];
      var extra := response - {"raw", "mto"};
      var mhtml: Option<string>, mbody: string;
      if StartsWith(raw, "<p>") || StartsWith(raw, "<html>") || StartsWith(raw, "<!") {
        mhtml, mbody := Some(raw), StripTags(raw);
      } else {
        mhtml, mbody := None, raw;
      }
      if "mbody" in extra || "mhtml" in extra {
        return Some(TypeError);
      }
      client.SendMessage(Send(mto, mbody, mhtml, extra));
      error := None;
    }

    /** The send part of `send_package_method`: a string, a dictionary or
        each dictionary of a list is sent; anything else sends nothing. */
    method SendReply(reply: Reply, kwargs: Kwargs) returns (error: Option<Exc>)
      modifies client
      ensures client.sent == old(client.sent) + Normalize(reply, kwargs).sends
      ensures error == Normalize(reply, kwargs).error
      ensures client.scheduler == old(client.scheduler) && client.schedules == old(client.schedules)
      ensures client.joined == old(client.joined)
    {
      match reply
      case Text(s) =>
        if "raw" in kwargs {
          error := Some(TypeError);
        } else {
          error := SendMessage(kwargs["raw" := s]);
        }
      case Dict(d) =>
        error := SendMessage(kwargs + d);
      case List(items) =>
        error := SendList(items, kwargs);
      case NoReply =>
        error := None;
      case Other(_) =>
        error := None;
    }

    /** A list reply: each dictionary entry sent in order, every other
        entry skipped, until a send raises. */
    method SendList(items: seq<Item>, kwargs: Kwargs) returns (error: Option<Exc>)
      modifies client
      ensures client.sent == old(client.sent) + ListSends(items, kwargs).sends
      ensures error == ListSends(items, kwargs).error
      ensures client.scheduler == old(client.scheduler) && client.schedules == old(client.schedules)
      ensures client.joined == old(client.joined)
    {
      var i := 0;
      ghost var done: seq<Send> := [];
      while i < |items|
        invariant 0 <= i <= |items|
        invariant client.sent == old(client.sent) + done
        invariant ListSends(items, kwargs).sends == done + ListSends(items[i..], kwargs).sends
        invariant ListSends(items, kwargs).error == ListSends(items[i..], kwargs).error
        invariant client.scheduler == old(client.scheduler) && client.schedules == old(client.schedules)
        invariant client.joined == old(client.joined)
      {
        ListSendsStep(items[i..], kwargs);
        assert items[i..][1..] == items[i + 1..];
        match items[i] {
          case NonDict =>
          case DictItem(d) =>
            var e := SendMessage(kwargs + d);
            if e.Some? {
              return e;
            }
            ghost var m := DictSend(d, kwargs).value;
            ConcatAssoc(done, [m], ListSends(items[i + 1..], kwargs).sends);
            done := done + [m];
        }
        i := i + 1;
      }
      error := None;
    }

    /** `register_timer(key)`: remove the key's occurrence if any, then
        schedule exactly one, after the fixed delay or one drawn from the
        range. An unknown key raises a KeyError and a range whose lower
        bound exceeds its upper bound a ValueError, both after the
        removal. */
    method RegisterTimer(key: TimerKey) returns (error: Option<Exc>)
      requires Valid()
      modifies client
      ensures Valid()
      ensures error.None? <==> key in Keys(timers) && !ArmFails(Lookup(timers, key).value)
      ensures key !in Keys(timers) ==> error == Some(KeyError)
      ensures key in Keys(timers) && ArmFails(Lookup(timers, key).value) ==> error == Some(ValueError)
      ensures error.Some? ==> client.scheduler == RemoveFirst(old(client.scheduler), TimerName(key))
      ensures error.None? ==> ArmedWith(old(client.scheduler), client.scheduler, key, Lookup(timers, key).value)
      ensures error.None? ==> ArmedFrom(client.scheduler, timers, {TimerName(key)})
      ensures Keeps(old(client.scheduler), client.scheduler, {TimerName(key)})
      ensures client.schedules == old(client.schedules) + (if error.None? then [TimerName(key)] else [])
      ensures NameSet(client.scheduler) ==
        if error.None? then NameSet(old(client.scheduler)) + {TimerName(key)}
        else NameSet(old(client.scheduler)) - {TimerName(key)}
      ensures client.sent == old(client.sent) && client.joined == old(client.joined)
    {
      var found := client.Remove(TimerName(key));
      NameSetScheduled(client.scheduler);
      var spec := Lookup(timers, key);
      if spec.None? {
        return Some(KeyError);
      }
      var d: int;
      match spec.value.delay {
        case Fixed(n) =>
          d := n;
        case Range(lo, hi) =>
          if lo > hi {
            return Some(ValueError);
          }
          d :| lo <= d <= hi;
      }
      var o := Occurrence(TimerName(key), d, RunTimerAction(key, spec.value.kwargs));
      ghost var removed := client.scheduler;
      var ok := client.Schedule(o);
      assert Fits(d, spec.value.delay);
      assert client.scheduler == removed + [o];
      forall o' | o' in client.scheduler && o'.name in {TimerName(key)}
        ensures TimerOccurrence(o', timers)
      {
        assert o' == o;
      }
      error := None;
    }

    /** `clear_timers`: every timer key's occurrence is removed (a missing
        one is ignored) and the timer table is emptied. */
    method ClearTimers()
      requires Valid()
      modifies this, client
      ensures Valid()
      ensures Registered() == old(Registered()).(timers := [])
      ensures client.scheduler == Without(old(client.scheduler), TimerNames(Keys(old(timers))))
      ensures NameSet(client.scheduler) == NameSet(old(client.scheduler)) - TimerNames(Keys(old(timers)))
      ensures client.schedules == old(client.schedules) && client.sent == old(client.sent)
      ensures client.joined == old(client.joined)
      ensures commentary == old(commentary) && nickname == old(nickname)
      ensures commandsMaxMatch == old(commandsMaxMatch) && commentaryQsize == old(commentaryQsize)
      ensures commentaryMaxlen == old(commentaryMaxlen)
    {
      var ks := Keys(timers);
      var i := 0;
      assert TimerNames(ks[..0]) == {};
      WithoutNone(client.scheduler, {});
      while i < |ks|
        invariant 0 <= i <= |ks|
        invariant client.Valid()
        invariant client.scheduler == Without(old(client.scheduler), TimerNames(ks[..i]))
        invariant NameSet(client.scheduler) == NameSet(old(client.scheduler)) - TimerNames(ks[..i])
        invariant client.schedules == old(client.schedules) && client.sent == old(client.sent)
        invariant client.joined == old(client.joined)
        modifies client
      {
        ghost var cur := client.scheduler;
        var found := client.Remove(TimerName(ks[i]));
        ClearStep(old(client.scheduler), cur, ks, i);
        i := i + 1;
      }
      assert ks[..i] == ks;
      timers := [];
    }

    /** The scalar state that configuring the tables leaves alone. */
    function Settings(): (string, int, int, int, seq<Reply>)
      reads this
    {
      (nickname, commandsMaxMatch, commentaryQsize, commentaryMaxlen, commentary)
    }

    /** `setup_private_commands`: entries with a valid raw pattern are
        appended in order, the others skipped. */
    method SetupPrivateCommands(alias: string, raw: seq<seq<string>>)
      modifies this
      ensures privateCommands == old(privateCommands) + AcceptedTriggers(raw, alias, regex, None)
      ensures Registered() == old(Registered()).(privateCommands := privateCommands)
      ensures Settings() == old(Settings())
    {
      var i := 0;
      while i < |raw|
        invariant 0 <= i <= |raw|
        invariant old(privateCommands) + AcceptedTriggers(raw, alias, regex, None) ==
                  privateCommands + AcceptedTriggers(raw[i..], alias, regex, None)
        invariant Registered() == old(Registered()).(privateCommands := privateCommands)
        invariant Settings() == old(Settings())
      {
        assert raw[i..][1..] == raw[i + 1..];
        if |raw[i]| == 2 && regex.valid(raw[i][0], None) {
          privateCommands := privateCommands + [Trigger(raw[i][0], alias, raw[i][1])];
        }
        i := i + 1;
      }
    }

    /** `setup_commands`: entries whose pattern is valid once rendered with
        the current nickname are appended in order, the others skipped. */
    method SetupCommands(alias: string, raw: seq<seq<string>>)
      modifies this
      ensures commands == old(commands) + AcceptedTriggers(raw, alias, regex, Some(nickname))
      ensures Registered() == old(Registered()).(commands := commands)
      ensures Settings() == old(Settings())
    {
      var i := 0;
      while i < |raw|
        invariant 0 <= i <= |raw|
        invariant old(commands) + AcceptedTriggers(raw, alias, regex, Some(nickname)) ==
                  commands + AcceptedTriggers(raw[i..], alias, regex, Some(nickname))
        invariant Registered() == old(Registered()).(commands := commands)
        invariant Settings() == old(Settings())
      {
        assert raw[i..][1..] == raw[i + 1..];
        if |raw[i]| == 2 && regex.valid(raw[i][0], Some(nickname)) {
          commands := commands + [Trigger(raw[i][0], alias, raw[i][1])];
        }
        i := i + 1;
      }
    }

    /** `setup_listeners`: every name is appended, unchecked. */
    method SetupListeners(alias: string, names: seq<string>)
      modifies this
      ensures listeners == old(listeners) + ListenerEntries(names, alias)
      ensures Registered() == old(Registered()).(listeners := listeners)
      ensures Settings() == old(Settings())
    {
      var i := 0;
      while i < |names|
        invariant 0 <= i <= |names|
        invariant old(listeners) + ListenerEntries(names, alias) == listeners + ListenerEntries(names[i..], alias)
        invariant Registered() == old(Registered()).(listeners := listeners)
        invariant Settings() == old(Settings())
      {
        assert names[i..][1..] == names[i + 1..];
        assert ListenerEntries(names[i..], alias) ==
               [ListenerEntry(alias, names[i])] + ListenerEntries(names[i + 1..], alias);
        ConcatAssoc(listeners, [ListenerEntry(alias, names[i])], ListenerEntries(names[i + 1..], alias));
        listeners := listeners + [ListenerEntry(alias, names[i])];
        i := i + 1;
      }
    }

    /** `setup_commentators`: every entry is appended unchecked; the first
        entry that is not a pair raises a ValueError. */
    method SetupCommentators(alias: string, raw: seq<seq<string>>) returns (error: Option<Exc>)
      modifies this
      ensures commentators == old(commentators) + CommentatorTriggers(raw, alias).done
      ensures error == CommentatorTriggers(raw, alias).error
      ensures Registered() == old(Registered()).(commentators := commentators)
      ensures Settings() == old(Settings())
    {
      var i := 0;
      while i < |raw|
        invariant 0 <= i <= |raw|
        invariant old(commentators) + CommentatorTriggers(raw, alias).done ==
                  commentators + CommentatorTriggers(raw[i..], alias).done
        invariant CommentatorTriggers(raw, alias).error == CommentatorTriggers(raw[i..], alias).error
        invariant Registered() == old(Registered()).(commentators := commentators)
        invariant Settings() == old(Settings())
      {
        assert raw[i..][1..] == raw[i + 1..];
        if |raw[i]| != 2 {
          return Some(ValueError);
        }
        var t := Trigger(raw[i][0], alias, raw[i][1]);
        assert CommentatorTriggers(raw[i..], alias).done == [t] + CommentatorTriggers(raw[i + 1..], alias).done;
        ConcatAssoc(commentators, [t], CommentatorTriggers(raw[i + 1..], alias).done);
        commentators := commentators + [t];
        i := i + 1;
      }
      error := None;
    }

    /** `setup_schedule`: each entry whose `seconds` is an int or a pair
        of ints is put under `(alias, method)`, a later one overwriting an
        earlier one; any other entry is logged and dropped; an entry
        without `seconds` or `method` raises a KeyError. */
    method SetupSchedule(alias: string, es: seq<ScheduleEntry>, kwargs: Kwargs) returns (error: Option<Exc>)
      requires DistinctKeys(timers)
      modifies this
      ensures DistinctKeys(timers)
      ensures timers == AddSchedule(old(timers), alias, es, kwargs).timers
      ensures error == AddSchedule(old(timers), alias, es, kwargs).error
      ensures Registered() == old(Registered()).(timers := timers)
      ensures Settings() == old(Settings())
    {
      var i := 0;
      while i < |es|
        invariant 0 <= i <= |es|
        invariant DistinctKeys(timers)
        invariant AddSchedule(timers, alias, es[i..], kwargs) == AddSchedule(old(timers), alias, es, kwargs)
        invariant Registered() == old(Registered()).(timers := timers)
        invariant Settings() == old(Settings())
      {
        assert es[i..][1..] == es[i + 1..];
        if es[i].seconds.None? {
          return Some(KeyError);
        }
        if es[i].methodName.None? {
          return Some(KeyError);
        }
        var d := ParseSeconds(es[i].seconds.value);
        if d.Some? {
          var key, spec := TimerKey(alias, es[i].methodName.value), TimerSpec(d.value, kwargs);
          PutTimerDistinct(timers, key, spec);
          timers := PutTimer(timers, key, spec);
        }
        i := i + 1;
      }
      error := None;
    }

    /** `setup_timers`: every timer group of the package, in order; a
        group without `schedule`, or with a `package` or `self` key, raises
        a TypeError, and an exception from a group stops the groups after
        it. */
    method SetupTimers(alias: string, groups: seq<TimerGroup>) returns (error: Option<Exc>)
      requires DistinctKeys(timers)
      modifies this
      ensures DistinctKeys(timers)
      ensures timers == AddTimers(old(timers), alias, groups).timers
      ensures error == AddTimers(old(timers), alias, groups).error
      ensures Registered() == old(Registered()).(timers := timers)
      ensures Settings() == old(Settings())
    {
      var i := 0;
      while i < |groups|
        invariant 0 <= i <= |groups|
        invariant DistinctKeys(timers)
        invariant AddTimers(timers, alias, groups[i..]) == AddTimers(old(timers), alias, groups)
        invariant Registered() == old(Registered()).(timers := timers)
        invariant Settings() == old(Settings())
      {
        assert groups[i..][1..] == groups[i + 1..];
        if BadGroup(groups[i]) {
          return Some(TypeError);
        }
        error := SetupSchedule(alias, groups[i].schedule.value, groups[i].kwargs);
        if error.Some? {
          return;
        }
        i := i + 1;
      }
      error := None;
    }

    /** `setup_package` and `setup_package_instance` for one descriptor,
        with `modules` standing for what importing a module yields. */
    method SetupPackage(pkg: Package, modules: map<string, map<string, ClassInfo>>) returns (error: Option<Exc>)
      requires Valid()
      modifies this
      ensures Valid()
      ensures Registered() == AddPackage(old(Registered()), pkg, modules, regex, nickname).reg
      ensures error == AddPackage(old(Registered()), pkg, modules, regex, nickname).error
      ensures Settings() == old(Settings())
    {
      if pkg.kwargs.None? {
        return Some(TypeError);
      }
      var dot := LastDot(pkg.path);
      if dot.None? {
        return Some(ValueError);
      }
      var ns, cls := pkg.path[..dot.value], pkg.path[dot.value + 1..];
      if ns == [] {
        return Some(ValueError);
      }
      if ns[0] == '.' {
        return Some(TypeError);
      }
      if ns !in modules {
        return Some(ImportError);
      }
      if cls !in modules[ns] {
        return Some(AttributeError);
      }
      if !modules[ns][cls].isClass {
        return Some(TypeError);
      }
      if !modules[ns][cls].isCommand {
        return None;
      }
      var alias := if pkg.alias.Some? then pkg.alias.value else pkg.path;
      objects := objects[alias := Handler(modules[ns][cls].methods)];
      SetupPrivateCommands(alias, pkg.privateCommands);
      SetupCommands(alias, pkg.commands);
      SetupListeners(alias, pkg.listeners);
      error := SetupCommentators(alias, pkg.commentators);
      if error.Some? {
        return;
      }
      error := SetupTimers(alias, pkg.timers);
    }

    /** `setup_packages`: read the cap and the commentary size (defaults 1
        and 2); empty every table, removing every timer's occurrence;
        refuse a commentary size that is not positive; start an empty
        commentary deque of that size; set up each package in order; then
        arm every timer once, in table order. Nothing of the previous
        tables survives a reload. */
    method SetupPackages(config: Config, modules: map<string, map<string, ClassInfo>>) returns (error: Option<Exc>)
      requires Valid()
      modifies this, client
      ensures Valid()
      ensures nickname == old(nickname)
      ensures commandsMaxMatch == if config.commandsMaxMatch.Some? then config.commandsMaxMatch.value else 1
      ensures commentaryQsize == if config.commentaryQsize.Some? then config.commentaryQsize.value else 2
      ensures commentaryQsize <= 0 ==>
        error == Some(ValueError) && Registered() == EmptyRegistry &&
        commentary == old(commentary) && commentaryMaxlen == old(commentaryMaxlen)
      ensures commentaryQsize > 0 ==> commentary == [] && commentaryMaxlen == commentaryQsize
      ensures commentaryQsize > 0 && config.packages.None? ==>
        error == Some(TypeError) && Registered() == EmptyRegistry
      ensures commentaryQsize > 0 && config.packages.Some? ==>
        Registered() == AddPackages(EmptyRegistry, config.packages.value, modules, regex, nickname).reg
      ensures commentaryQsize > 0 && config.packages.Some? &&
              AddPackages(EmptyRegistry, config.packages.value, modules, regex, nickname).error.Some? ==>
        error == AddPackages(EmptyRegistry, config.packages.value, modules, regex, nickname).error
      ensures commentaryQsize > 0 && config.packages.Some? &&
              AddPackages(EmptyRegistry, config.packages.value, modules, regex, nickname).error.None? ==>
        (error.None? <==> AllArmable(timers)) &&
        (error.Some? ==> error == Some(ValueError))
      ensures error.None? ==>
        client.schedules == old(client.schedules) + SchedNames(Keys(timers)) &&
        NameSet(client.scheduler) == NameSet(old(client.scheduler)) - TimerNames(Keys(old(timers))) + TimerNames(Keys(timers))
      ensures commentaryQsize <= 0 || config.packages.None? ||
              AddPackages(EmptyRegistry, config.packages.value, modules, regex, nickname).error.Some? ==>
        client.scheduler == Without(old(client.scheduler), TimerNames(Keys(old(timers)))) &&
        client.schedules == old(client.schedules)
      ensures commentaryQsize > 0 && config.packages.Some? &&
              AddPackages(EmptyRegistry, config.packages.value, modules, regex, nickname).error.None? && error.Some? ==>
        var j := FirstUnarmable(timers);
        j < |timers| &&
        client.schedules == old(client.schedules) + SchedNames(Keys(timers)[..j]) &&
        NameSet(client.scheduler) ==
          NameSet(old(client.scheduler)) - TimerNames(Keys(old(timers))) + TimerNames(Keys(timers)[..j]) - {TimerName(timers[j].key)} &&
        ArmedFrom(client.scheduler, timers, TimerNames(Keys(timers)[..j])) &&
        Keeps(old(client.scheduler), client.scheduler,
              TimerNames(Keys(old(timers))) + (TimerNames(Keys(timers)[..j]) + {TimerName(timers[j].key)}))
      ensures error.None? ==>
        ArmedFrom(client.scheduler, timers, TimerNames(Keys(timers))) &&
        Keeps(old(client.scheduler), client.scheduler, TimerNames(Keys(old(timers))) + TimerNames(Keys(timers)))
      ensures client.sent == old(client.sent) && client.joined == old(client.joined)
    {
      ghost var before, oldNames := client.scheduler, TimerNames(Keys(timers));
      error := ResetTables(config);
      WithoutKeeps(before, oldNames);
      if error.Some? {
        return;
      }
      if config.packages.None? {
        return Some(TypeError);
      }
      ghost var s0, names0, mid := client.schedules, NameSet(client.scheduler), client.scheduler;
      error := LoadPackages(config.packages.value, modules);
      if error.None? {
        KeepsThen(before, mid, client.scheduler, oldNames, TimerNames(Keys(timers)));
      } else if AddPackages(EmptyRegistry, config.packages.value, modules, regex, nickname).error.None? {
        var j := FirstUnarmable(timers);
        KeepsThen(before, mid, client.scheduler, oldNames, TimerNames(Keys(timers)[..j]) + {TimerName(timers[j].key)});
      }
      assert error.None? ==>
        client.schedules == s0 + SchedNames(Keys(timers)) &&
        NameSet(client.scheduler) == names0 + TimerNames(Keys(timers));
    }

    /** The first half of `setup_packages`: read the settings, empty every
        table (removing the timers' occurrences), and start the commentary
        deque, or raise ValueError for a size that is not positive. */
    method ResetTables(config: Config) returns (error: Option<Exc>)
      requires Valid()
      modifies this, client
      ensures Valid()
      ensures Registered() == EmptyRegistry
      ensures nickname == old(nickname)
      ensures commandsMaxMatch == if config.commandsMaxMatch.Some? then config.commandsMaxMatch.value else 1
      ensures commentaryQsize == if config.commentaryQsize.Some? then config.commentaryQsize.value else 2
      ensures error.Some? <==> commentaryQsize <= 0
      ensures error.Some? ==> error == Some(ValueError)
      ensures commentaryQsize <= 0 ==> commentary == old(commentary) && commentaryMaxlen == old(commentaryMaxlen)
      ensures commentaryQsize > 0 ==> commentary == [] && commentaryMaxlen == commentaryQsize
      ensures client.scheduler == Without(old(client.scheduler), TimerNames(Keys(old(timers))))
      ensures NameSet(client.scheduler) == NameSet(old(client.scheduler)) - TimerNames(Keys(old(timers)))
      ensures client.schedules == old(client.schedules)
      ensures client.sent == old(client.sent) && client.joined == old(client.joined)
    {
      ClearTimers();
      objects, privateCommands, commands, listeners, commentators := map[], [], [], [], [];
      error := ResetSettings(config);
    }

    /** The configured match cap and commentary size, with their defaults;
        the commentary deque is recreated only for a positive size. */
    method ResetSettings(config: Config) returns (error: Option<Exc>)
      requires 0 < commentaryMaxlen && |commentary| <= commentaryMaxlen
      modifies this
      ensures 0 < commentaryMaxlen && |commentary| <= commentaryMaxlen
      ensures Registered() == old(Registered()) && nickname == old(nickname)
      ensures commandsMaxMatch == if config.commandsMaxMatch.Some? then config.commandsMaxMatch.value else 1
      ensures commentaryQsize == if config.commentaryQsize.Some? then config.commentaryQsize.value else 2
      ensures error.Some? <==> commentaryQsize <= 0
      ensures error.Some? ==> error == Some(ValueError)
      ensures commentaryQsize <= 0 ==> commentary == old(commentary) && commentaryMaxlen == old(commentaryMaxlen)
      ensures commentaryQsize > 0 ==> commentary == [] && commentaryMaxlen == commentaryQsize
    {
      commandsMaxMatch := if config.commandsMaxMatch.Some? then config.commandsMaxMatch.value else 1;
      commentaryQsize := if config.commentaryQsize.Some? then config.commentaryQsize.value else 2;
      if commentaryQsize <= 0 {
        error := Some(ValueError);
      } else {
        commentary, commentaryMaxlen := [], commentaryQsize;
        error := None;
      }
    }

    /** The two loops of `setup_packages`: set up each package in order,
        then, when none raised, arm every timer once, in table order. */
    method LoadPackages(pkgs: seq<Package>, modules: map<string, map<string, ClassInfo>>) returns (error: Option<Exc>)
      requires Valid()
      modifies this, client
      ensures Valid()
      ensures Settings() == old(Settings())
      ensures Registered() == AddPackages(old(Registered()), pkgs, modules, regex, nickname).reg
      ensures AddPackages(old(Registered()), pkgs, modules, regex, nickname).error.Some? ==>
        error == AddPackages(old(Registered()), pkgs, modules, regex, nickname).error &&
        client.scheduler == old(client.scheduler) && client.schedules == old(client.schedules)
      ensures AddPackages(old(Registered()), pkgs, modules, regex, nickname).error.None? ==>
        (error.None? <==> AllArmable(timers)) && (error.Some? ==> error == Some(ValueError))
      ensures error.None? ==>
        client.schedules == old(client.schedules) + SchedNames(Keys(timers)) &&
        NameSet(client.scheduler) == NameSet(old(client.scheduler)) + TimerNames(Keys(timers))
      ensures AddPackages(old(Registered()), pkgs, modules, regex, nickname).error.None? && error.Some? ==>
        var j := FirstUnarmable(timers);
        j < |timers| &&
        client.schedules == old(client.schedules) + SchedNames(Keys(timers)[..j]) &&
        NameSet(client.scheduler) == NameSet(old(client.scheduler)) + TimerNames(Keys(timers)[..j]) - {TimerName(timers[j].key)} &&
        ArmedFrom(client.scheduler, timers, TimerNames(Keys(timers)[..j])) &&
        Keeps(old(client.scheduler), client.scheduler, TimerNames(Keys(timers)[..j]) + {TimerName(timers[j].key)})
      ensures error.None? ==>
        ArmedFrom(client.scheduler, timers, TimerNames(Keys(timers))) &&
        Keeps(old(client.scheduler), client.scheduler, TimerNames(Keys(timers)))
      ensures client.sent == old(client.sent) && client.joined == old(client.joined)
    {
      error := SetupPackageList(pkgs, modules);
      if error.Some? {
        return;
      }
      error := RegisterAllTimers();
    }

    /** The `for package in packages` loop of `setup_packages`: the first
        exception stops it. */
    method SetupPackageList(pkgs: seq<Package>, modules: map<string, map<string, ClassInfo>>) returns (error: Option<Exc>)
      requires Valid()
      modifies this
      ensures Valid()
      ensures Registered() == AddPackages(old(Registered()), pkgs, modules, regex, nickname).reg
      ensures error == AddPackages(old(Registered()), pkgs, modules, regex, nickname).error
      ensures Settings() == old(Settings())
    {
      ghost var all := AddPackages(Registered(), pkgs, modules, regex, nickname);
      var i := 0;
      while i < |pkgs|
        invariant 0 <= i <= |pkgs|
        invariant Valid()
        invariant AddPackages(Registered(), pkgs[i..], modules, regex, nickname) == all
        invariant Settings() == old(Settings())
      {
        assert pkgs[i..][1..] == pkgs[i + 1..];
        error := SetupPackage(pkgs[i], modules);
        if error.Some? {
          return;
        }
        i := i + 1;
      }
      error := None;
    }

    /** The `for timer in self.timers.keys()` loop of `setup_packages`:
        every key is armed once, in table order, until one raises. */
    method RegisterAllTimers() returns (error: Option<Exc>)
      requires Valid()
      modifies client
      ensures Valid()
      ensures error.None? <==> AllArmable(timers)
      ensures error.Some? ==> error == Some(ValueError)
      ensures error.None? ==>
        client.schedules == old(client.schedules) + SchedNames(Keys(timers)) &&
        NameSet(client.scheduler) == NameSet(old(client.scheduler)) + TimerNames(Keys(timers))
      ensures error.Some? ==>
        var j := FirstUnarmable(timers);
        j < |timers| &&
        client.schedules == old(client.schedules) + SchedNames(Keys(timers)[..j]) &&
        NameSet(client.scheduler) == NameSet(old(client.scheduler)) + TimerNames(Keys(timers)[..j]) - {TimerName(timers[j].key)} &&
        ArmedFrom(client.scheduler, timers, TimerNames(Keys(timers)[..j])) &&
        Keeps(old(client.scheduler), client.scheduler, TimerNames(Keys(timers)[..j]) + {TimerName(timers[j].key)})
      ensures error.None? ==>
        ArmedFrom(client.scheduler, timers, TimerNames(Keys(timers))) &&
        Keeps(old(client.scheduler), client.scheduler, TimerNames(Keys(timers)))
      ensures client.sent == old(client.sent) && client.joined == old(client.joined)
    {
      ghost var s0, log0, names0 := client.scheduler, client.schedules, NameSet(client.scheduler);
      ghost var done: seq<TimerKey> := [];
      var j := 0;
      while j < |timers|
        invariant 0 <= j <= |timers| && done == Keys(timers)[..j]
        invariant Valid()
        invariant client.schedules == log0 + SchedNames(done)
        invariant NameSet(client.scheduler) == names0 + TimerNames(done)
        invariant Keeps(s0, client.scheduler, TimerNames(done))
        invariant ArmedFrom(client.scheduler, timers, TimerNames(done))
        invariant AllArmable(timers[..j])
        invariant client.sent == old(client.sent) && client.joined == old(client.joined)
      {
        error, done := ArmTurn(s0, log0, names0, done, j);
        if error.Some? {
          return;
        }
        j := j + 1;
      }
      assert done == Keys(timers) && timers[..j] == timers;
      error := None;
    }

    /** One turn of that loop, with `done` the keys armed before it. */
    method ArmTurn(ghost s0: seq<Occurrence>, ghost log0: seq<SchedName>, ghost names0: set<SchedName>,
                   ghost done: seq<TimerKey>, j: nat)
      returns (error: Option<Exc>, ghost done': seq<TimerKey>)
      requires Valid() && j < |timers| && done == Keys(timers)[..j]
      requires client.schedules == log0 + SchedNames(done)
      requires NameSet(client.scheduler) == names0 + TimerNames(done)
      requires Keeps(s0, client.scheduler, TimerNames(done))
      requires ArmedFrom(client.scheduler, timers, TimerNames(done))
      requires AllArmable(timers[..j])
      modifies client
      ensures Valid()
      ensures Keeps(s0, client.scheduler, TimerNames(done) + {TimerName(timers[j].key)})
      ensures error.Some? ==> ArmedFrom(client.scheduler, timers, TimerNames(done))
      ensures error.None? ==> ArmedFrom(client.scheduler, timers, TimerNames(done'))
      ensures error.Some? ==> error == Some(ValueError) && FirstUnarmable(timers) == j
      ensures error.Some? ==>
        client.schedules == log0 + SchedNames(done) &&
        NameSet(client.scheduler) == names0 + TimerNames(done) - {TimerName(timers[j].key)}
      ensures error.None? ==>
        done' == Keys(timers)[..j + 1] && AllArmable(timers[..j + 1]) &&
        client.schedules == log0 + SchedNames(done') &&
        NameSet(client.scheduler) == names0 + TimerNames(done')
      ensures client.sent == old(client.sent) && client.joined == old(client.joined)
    {
      ghost var s1 := client.scheduler;
      var n := TimerName(timers[j].key);
      assert forall i :: 0 <= i < j ==> done[i] == timers[i].key != timers[j].key;
      assert n !in TimerNames(done);
      error := ArmAt(j);
      done' := done + [timers[j].key];
      KeyNamesSnoc(log0, done, timers[j].key);
      if error.Some? {
        FirstUnarmableAt(timers, j);
      } else {
        AllArmableSnoc(timers, j);
        KeysPrefixSnoc(timers, j);
      }
    }

    /** One turn of that loop: `register_timer` on the key at index `j`,
        which is in the table, so only a range that cannot be drawn from
        raises. */
    method ArmAt(j: nat) returns (error: Option<Exc>)
      requires Valid() && j < |timers|
      modifies client
      ensures Valid()
      ensures error.Some? <==> ArmFails(timers[j].spec)
      ensures error.Some? ==> error == Some(ValueError) && !AllArmable(timers)
      ensures error.None? ==>
        client.schedules == old(client.schedules) + [TimerName(timers[j].key)] &&
        NameSet(client.scheduler) == NameSet(old(client.scheduler)) + {TimerName(timers[j].key)}
      ensures error.Some? ==>
        client.schedules == old(client.schedules) &&
        NameSet(client.scheduler) == NameSet(old(client.scheduler)) - {TimerName(timers[j].key)}
      ensures error.None? ==> ArmedFrom(client.scheduler, timers, {TimerName(timers[j].key)})
      ensures Keeps(old(client.scheduler), client.scheduler, {TimerName(timers[j].key)})
      ensures client.sent == old(client.sent) && client.joined == old(client.joined)
    {
      LookupAt(timers, j);
      assert Keys(timers)[j] == timers[j].key;
      error := RegisterTimer(timers[j].key);
    }

    /** `send_package_method`: look the handler up (a failure escapes),
        call it (its own exception gives None and nothing else), send its
        reply, re-arm its timer if it has one, and return the raw reply. */
    method SendPackageMethod(c: Call, kwargs: Kwargs, body: Body) returns (result: Result<Reply>)
      requires Valid()
      modifies client
      ensures Valid()
      ensures result == PackageMethod(objects, timers, body, c, kwargs).result
      ensures Applied(old(client.State()), client.State(),
                      StepRun(0, TimerKey(c.alias, c.methodName), PackageMethod(objects, timers, body, c, kwargs)), timers)
    {
      ghost var c0 := client.State();
      ghost var st := PackageMethod(objects, timers, body, c, kwargs);
      var key := TimerKey(c.alias, c.methodName);
      if c.alias !in objects || c.methodName !in objects[c.alias].methods {
        result := Raised(if c.alias !in objects then KeyError else AttributeError);
        AppliedStep(c0, client.State(), 0, key, st, timers);
        return;
      }
      var outcome := body(c);
      if outcome.Fails? {
        AppliedStep(c0, client.State(), 0, key, st, timers);
        return Ok(NoReply);
      }
      var e := SendReply(outcome.reply, kwargs);
      assert client.sent == c0.sent + Normalize(outcome.reply, kwargs).sends;
      if e.Some? {
        result := Raised(e.value);
        AppliedStep(c0, client.State(), 0, key, st, timers);
        return;
      }
      var spec := Lookup(timers, key);
      if spec.Some? {
        var err := RegisterTimer(key);
        if err.Some? {
          result := Raised(err.value);
          AppliedStep(c0, client.State(), 0, key, st, timers);
          return;
        }
      }
      result := Ok(outcome.reply);
      AppliedStep(c0, client.State(), 0, key, st, timers);
    }

    /** One trigger of a dispatch pass: render and compile its pattern
        against `nick` (`None`: used raw), search the message body, and on
        a match call its handler through `send_package_method`. `valid` is
        false when the pattern does not compile; `result` is the call's
        result, absent when nothing matched. */
    method TrySlot(ts: seq<Trigger>, i: nat, nick: Option<string>, msg: Msg, kwargs: Kwargs, body: Body)
      returns (valid: bool, result: Option<Result<Reply>>)
      requires Valid() && i < |ts|
      modifies client
      ensures Valid()
      ensures valid <==> !SlotAt(Env(body), ts, i, nick, msg, kwargs).Invalid?
      ensures result.Some? <==> SlotAt(Env(body), ts, i, nick, msg, kwargs).Answered?
      ensures result.None? ==> client.State() == old(client.State())
      ensures result.Some? ==>
        Reports(SlotAt(Env(body), ts, i, nick, msg, kwargs).h, result.value) &&
        Applied(old(client.State()), client.State(), SlotAt(Env(body), ts, i, nick, msg, kwargs).h, timers)
    {
      var t := ts[i];
      if !regex.valid(t.pattern, nick) {
        return false, None;
      }
      var m := regex.search(t.pattern, nick, msg.body);
      if m.None? {
        return true, None;
      }
      ghost var st := TriggerStep(Env(body), t, msg, m.value, kwargs);
      assert SlotAt(Env(body), ts, i, nick, msg, kwargs) == Answered(StepRun(i, KeyOf(t), st));
      var r := SendPackageMethod(Call(t.alias, t.methodName, Some(msg), m, map[]), kwargs, body);
      StepRunAt(old(client.State()), client.State(), i, KeyOf(t), st, timers);
      return true, Some(r);
    }

    /** `run_command` for a room message: never for the bot's own
        messages; otherwise each command in order, its pattern rendered
        with the current nickname, until `commands_max_match` truthy
        replies were counted; a matching command's handler replies into
        the room. A pattern that does not compile and an exception
        escaping `send_package_method` end the pass. */
    method RunCommand(msg: Msg, body: Body) returns (error: Option<Exc>)
      requires Valid()
      modifies client
      ensures Valid()
      ensures msg.mucnick == nickname ==> error.None? && client.State() == old(client.State())
      ensures msg.mucnick != nickname ==>
        error == CappedRun(CommandSlots(Env(body), commands, msg), 0, 0, commandsMaxMatch).error &&
        Applied(old(client.State()), client.State(), CappedRun(CommandSlots(Env(body), commands, msg), 0, 0, commandsMaxMatch), timers)
    {
      if msg.mucnick == nickname {
        return None;
      }
      SlotsAreSlotsFrom(Env(body), commands, Some(nickname), msg, GroupchatKwargs(msg), 0);
      error := CommandPass(CommandSlots(Env(body), commands, msg), msg, body);
    }

    /** The loop of `run_command`, over the commands' slots `ss`. */
    method CommandPass(ghost ss: seq<Slot>, msg: Msg, body: Body) returns (error: Option<Exc>)
      requires Valid() && SlotsFrom(ss, Env(body), commands, Some(nickname), msg, GroupchatKwargs(msg), 0)
      modifies client
      ensures Valid()
      ensures error == CappedRun(ss, 0, 0, commandsMaxMatch).error
      ensures Applied(old(client.State()), client.State(), CappedRun(ss, 0, 0, commandsMaxMatch), timers)
    {
      ghost var c0, total := client.State(), CappedRun(ss, 0, 0, commandsMaxMatch);
      ghost var acc := Idle;
      AppliedQuiet(c0, Idle, timers);
      var matched := 0;
      var i := 0;
      while i < |commands| && matched < commandsMaxMatch
        invariant 0 <= i <= |commands| && Valid()
        invariant SlotsFrom(ss, Env(body), commands, Some(nickname), msg, GroupchatKwargs(msg), i)
        invariant acc.error.None? && acc.unarmed.None?
        invariant total == Then(acc, CappedRun(ss, i, matched, commandsMaxMatch))
        invariant Applied(c0, client.State(), acc, timers)
      {
        error, matched, acc := CommandTurn(ss, c0, total, acc, i, matched, msg, body);
        if error.Some? {
          return;
        }
        i := i + 1;
      }
      assert CappedRun(ss, i, matched, commandsMaxMatch) == Idle;
      AppliedDone(c0, client.State(), acc, total, timers);
      error := None;
    }

    /** One turn of `run_command`'s loop, under the cap: the command at
        index `i` is tried; `total` is the whole pass, `acc` what has run
        before this turn. */
    method CommandTurn(ghost ss: seq<Slot>, ghost c0: Snapshot, ghost total: Run, ghost acc: Run,
                       i: nat, matched: int, msg: Msg, body: Body)
      returns (error: Option<Exc>, matched': int, ghost acc': Run)
      requires Valid() && i < |commands| && matched < commandsMaxMatch
      requires SlotsFrom(ss, Env(body), commands, Some(nickname), msg, GroupchatKwargs(msg), i)
      requires acc.error.None? && acc.unarmed.None?
      requires total == Then(acc, CappedRun(ss, i, matched, commandsMaxMatch))
      requires Applied(c0, client.State(), acc, timers)
      modifies client
      ensures Valid()
      ensures SlotsFrom(ss, Env(body), commands, Some(nickname), msg, GroupchatKwargs(msg), i + 1)
      ensures error.Some? ==> error == total.error && Applied(c0, client.State(), total, timers)
      ensures error.None? ==>
        acc'.error.None? && acc'.unarmed.None? &&
        total == Then(acc', CappedRun(ss, i + 1, matched', commandsMaxMatch)) &&
        Applied(c0, client.State(), acc', timers)
    {
      ghost var c1 := client.State();
      CappedRunAdvance(ss, i, matched, commandsMaxMatch, acc, total);
      var valid, result := TrySlot(commands, i, Some(nickname), msg, GroupchatKwargs(msg), body);
      matched', acc' := matched, acc;
      if !valid {
        AppliedQuiet(c1, Failed, timers);
        AppliedThen(c0, c1, c1, acc, Failed, timers);
        return Some(PatternError), matched', acc';
      }
      if result.Some? {
        ghost var h := ss[i].h;
        AppliedThen(c0, c1, client.State(), acc, h, timers);
        if result.value.Raised? {
          return Some(result.value.error), matched', acc';
        }
        acc' := Then(acc, h);
        CappedRunAnswered(ss, i, matched, commandsMaxMatch, acc, total, result.value);
        if Truthy(result.value.value) {
          matched' := matched + 1;
        }
        assert matched' == matched + (if Truthy(result.value.value) then 1 else 0);
      }
      error := None;
    }

    /** `run_private_command` for a direct message: only a message of type
        `chat`; each private command in order, its pattern used raw; every
        matching command's handler replies to the sender. A pattern that
        does not compile and an exception escaping `send_package_method`
        end the pass. */
    method RunPrivateCommand(msg: Msg, body: Body) returns (error: Option<Exc>)
      requires Valid()
      modifies client
      ensures Valid()
      ensures msg.mtype != "chat" ==> error.None? && client.State() == old(client.State())
      ensures msg.mtype == "chat" ==>
        error == EveryRun(PrivateSlots(Env(body), privateCommands, msg), 0).error &&
        Applied(old(client.State()), client.State(), EveryRun(PrivateSlots(Env(body), privateCommands, msg), 0), timers)
    {
      if msg.mtype != "chat" {
        return None;
      }
      SlotsAreSlotsFrom(Env(body), privateCommands, None, msg, PrivateKwargs(msg), 0);
      error := PrivatePass(PrivateSlots(Env(body), privateCommands, msg), msg, body);
    }

    /** The loop of `run_private_command`, over the private commands'
        slots `ss`. */
    method PrivatePass(ghost ss: seq<Slot>, msg: Msg, body: Body) returns (error: Option<Exc>)
      requires Valid() && SlotsFrom(ss, Env(body), privateCommands, None, msg, PrivateKwargs(msg), 0)
      modifies client
      ensures Valid()
      ensures error == EveryRun(ss, 0).error
      ensures Applied(old(client.State()), client.State(), EveryRun(ss, 0), timers)
    {
      ghost var c0, total := client.State(), EveryRun(ss, 0);
      ghost var acc := Idle;
      AppliedQuiet(c0, Idle, timers);
      var i := 0;
      while i < |privateCommands|
        invariant 0 <= i <= |privateCommands| && Valid()
        invariant SlotsFrom(ss, Env(body), privateCommands, None, msg, PrivateKwargs(msg), i)
        invariant acc.error.None? && acc.unarmed.None?
        invariant total == Then(acc, EveryRun(ss, i))
        invariant Applied(c0, client.State(), acc, timers)
      {
        error, acc := PrivateTurn(ss, c0, total, acc, i, msg, body);
        if error.Some? {
          return;
        }
        i := i + 1;
      }
      assert EveryRun(ss, i) == Idle;
      AppliedDone(c0, client.State(), acc, total, timers);
      error := None;
    }

    /** One turn of `run_private_command`'s loop: the private command at
        index `i` is tried. */
    method PrivateTurn(ghost ss: seq<Slot>, ghost c0: Snapshot, ghost total: Run, ghost acc: Run,
                       i: nat, msg: Msg, body: Body)
      returns (error: Option<Exc>, ghost acc': Run)
      requires Valid() && i < |privateCommands|
      requires SlotsFrom(ss, Env(body), privateCommands, None, msg, PrivateKwargs(msg), i)
      requires acc.error.None? && acc.unarmed.None?
      requires total == Then(acc, EveryRun(ss, i))
      requires Applied(c0, client.State(), acc, timers)
      modifies client
      ensures Valid()
      ensures SlotsFrom(ss, Env(body), privateCommands, None, msg, PrivateKwargs(msg), i + 1)
      ensures error.Some? ==> error == total.error && Applied(c0, client.State(), total, timers)
      ensures error.None? ==>
        acc'.error.None? && acc'.unarmed.None? &&
        total == Then(acc', EveryRun(ss, i + 1)) &&
        Applied(c0, client.State(), acc', timers)
    {
      ghost var c1 := client.State();
      EveryRunAdvance(ss, i, acc, total);
      var valid, result := TrySlot(privateCommands, i, None, msg, PrivateKwargs(msg), body);
      acc' := acc;
      if !valid {
        AppliedQuiet(c1, Failed, timers);
        AppliedThen(c0, c1, c1, acc, Failed, timers);
        return Some(PatternError), acc';
      }
      if result.Some? {
        ghost var h := ss[i].h;
        AppliedThen(c0, c1, client.State(), acc, h, timers);
        if result.value.Raised? {
          return Some(result.value.error), acc';
        }
        acc' := Then(acc, h);
      }
      error := None;
    }

    /** `run_listener` for a room message: not for the bot's own
        messages; otherwise every listener in order is handed the message,
        its outcome ignored and its exception swallowed, but a listener
        whose package or method is gone ends the pass with the lookup
        error. `called` lists the listeners reached. */
    method RunListener(msg: Msg, body: Body) returns (error: Option<Exc>, ghost called: seq<nat>)
      requires Valid()
      ensures msg.mucnick == nickname ==> error.None? && called == []
      ensures msg.mucnick != nickname ==>
        Heard(called, error) == ListenerRun(objects, body, listeners, 0, msg)
    {
      called := [];
      if msg.mucnick == nickname {
        return None, called;
      }
      var i := 0;
      while i < |listeners|
        invariant 0 <= i <= |listeners|
        invariant ListenerRun(objects, body, listeners, 0, msg) ==
          Heard(called + ListenerRun(objects, body, listeners, i, msg).called,
                ListenerRun(objects, body, listeners, i, msg).error)
        decreases |listeners| - i
      {
        var entry := listeners[i];
        if entry.alias !in objects {
          return Some(KeyError), called;
        }
        if entry.methodName !in objects[entry.alias].methods {
          return Some(AttributeError), called;
        }
        // the handler's outcome, reply or exception, is discarded
        var _ := body(Call(entry.alias, entry.methodName, Some(msg), None, map[]));
        ConcatAssoc(called, [i], ListenerRun(objects, body, listeners, i + 1, msg).called);
        called := called + [i];
        i := i + 1;
      }
      error := None;
    }

    /** `run_commentator` for a room message: not for a message of the
        bot's own whose body is among its recent commentary; otherwise
        each commentator in order, its pattern rendered with the current
        nickname, until one handler answers truthily: that reply is sent
        into the room and remembered in the bounded commentary. */
    method RunCommentator(msg: Msg, body: Body) returns (error: Option<Exc>)
      requires Valid()
      modifies this, client
      ensures Valid()
      ensures Registered() == old(Registered()) && nickname == old(nickname)
      ensures commandsMaxMatch == old(commandsMaxMatch) && commentaryQsize == old(commentaryQsize)
      ensures commentaryMaxlen == old(commentaryMaxlen)
      ensures msg.mucnick == nickname && Text(msg.body) in old(commentary) ==>
        error.None? && client.State() == old(client.State()) && commentary == old(commentary)
      ensures !(msg.mucnick == nickname && Text(msg.body) in old(commentary)) ==>
        error == FirstRun(CommentSlots(Env(body), commentators, msg), 0).error &&
        Applied(old(client.State()), client.State(), FirstRun(CommentSlots(Env(body), commentators, msg), 0), timers) &&
        commentary ==
          if FirstRun(CommentSlots(Env(body), commentators, msg), 0).replies == [] then old(commentary)
          else Window(old(commentary), FirstRun(CommentSlots(Env(body), commentators, msg), 0).replies[0], commentaryMaxlen)
    {
      if msg.mucnick == nickname && Text(msg.body) in commentary {
        return None;
      }
      SlotsAreSlotsFrom(Env(body), commentators, Some(nickname), msg, GroupchatKwargs(msg), 0);
      var reply;
      error, reply := CommentPass(CommentSlots(Env(body), commentators, msg), msg, body);
      if reply.Some? {
        commentary := Window(commentary, reply.value, commentaryMaxlen);
        WindowBounded(old(commentary), reply.value, commentaryMaxlen);
      }
    }

    /** The loop of `run_commentator`, over the commentators' slots `ss`:
        the truthy reply that ended it, if any. */
    method CommentPass(ghost ss: seq<Slot>, msg: Msg, body: Body) returns (error: Option<Exc>, reply: Option<Reply>)
      requires Valid() && SlotsFrom(ss, Env(body), commentators, Some(nickname), msg, GroupchatKwargs(msg), 0)
      modifies client
      ensures Valid()
      ensures error == FirstRun(ss, 0).error
      ensures Applied(old(client.State()), client.State(), FirstRun(ss, 0), timers)
      ensures reply.Some? <==> FirstRun(ss, 0).replies != []
      ensures reply.Some? ==> FirstRun(ss, 0).replies[0] == reply.value
    {
      ghost var c0, total := client.State(), FirstRun(ss, 0);
      ghost var acc := Idle;
      AppliedQuiet(c0, Idle, timers);
      var i := 0;
      while i < |commentators|
        invariant 0 <= i <= |commentators| && Valid()
        invariant SlotsFrom(ss, Env(body), commentators, Some(nickname), msg, GroupchatKwargs(msg), i)
        invariant acc.error.None? && acc.unarmed.None? && acc.replies == []
        invariant total == Then(acc, FirstRun(ss, i))
        invariant Applied(c0, client.State(), acc, timers)
      {
        error, reply, acc := CommentTurn(ss, c0, total, acc, i, msg, body);
        if error.Some? || reply.Some? {
          return;
        }
        i := i + 1;
      }
      assert FirstRun(ss, i) == Idle;
      AppliedDone(c0, client.State(), acc, total, timers);
      error, reply := None, None;
    }

    /** One turn of `run_commentator`'s loop: the commentator at index `i`
        is tried. */
    method CommentTurn(ghost ss: seq<Slot>, ghost c0: Snapshot, ghost total: Run, ghost acc: Run,
                       i: nat, msg: Msg, body: Body)
      returns (error: Option<Exc>, reply: Option<Reply>, ghost acc': Run)
      requires Valid() && i < |commentators|
      requires SlotsFrom(ss, Env(body), commentators, Some(nickname), msg, GroupchatKwargs(msg), i)
      requires acc.error.None? && acc.unarmed.None? && acc.replies == []
      requires total == Then(acc, FirstRun(ss, i))
      requires Applied(c0, client.State(), acc, timers)
      modifies client
      ensures Valid()
      ensures SlotsFrom(ss, Env(body), commentators, Some(nickname), msg, GroupchatKwargs(msg), i + 1)
      ensures error.Some? ==>
        reply.None? && error == total.error && total.replies == [] && Applied(c0, client.State(), total, timers)
      ensures reply.Some? ==>
        error.None? && total.error.None? && total.replies == [reply.value] && Applied(c0, client.State(), total, timers)
      ensures error.None? && reply.None? ==>
        acc'.error.None? && acc'.unarmed.None? && acc'.replies == [] &&
        total == Then(acc', FirstRun(ss, i + 1)) &&
        Applied(c0, client.State(), acc', timers)
    {
      ghost var c1 := client.State();
      FirstRunAdvance(ss, i, acc, total);
      var valid, result := TrySlot(commentators, i, Some(nickname), msg, GroupchatKwargs(msg), body);
      acc' := acc;
      if !valid {
        AppliedQuiet(c1, Failed, timers);
        AppliedThen(c0, c1, c1, acc, Failed, timers);
        return Some(PatternError), None, acc';
      }
      if result.Some? {
        ghost var h := ss[i].h;
        AppliedThen(c0, c1, client.State(), acc, h, timers);
        if result.value.Raised? {
          return Some(result.value.error), None, acc';
        }
        if Truthy(result.value.value) {
          return None, Some(result.value.value), acc';
        }
        acc' := Then(acc, h);
      }
      error, reply := None, None;
    }

    /** `run_timer` for a fired timer occurrence:
        `send_package_method(alias, method, **kwargs)`. A keyword `self`,
        `package` or `method` binds a parameter twice and raises a
        TypeError before anything runs; otherwise the handler is called
        with the timer's `msg` and `match` entries, which are popped, and
        replies with the remaining keyword arguments. */
    method RunTimer(key: TimerKey, kwargs: Kwargs, body: Body) returns (result: Result<Reply>)
      requires Valid()
      modifies client
      ensures Valid()
      ensures result == TimerStep(objects, timers, body, key, kwargs).result
      ensures Applied(old(client.State()), client.State(),
                      StepRun(0, key, TimerStep(objects, timers, body, key, kwargs)), timers)
    {
      if BindsTwice(kwargs) {
        result := Raised(TypeError);
        assert StepRun(0, key, TimerStep(objects, timers, body, key, kwargs)).rearmed == [];
        return;
      }
      result := SendPackageMethod(TimerCall(key, kwargs), kwargs - {"msg", "match"}, body);
    }

    /** The scheduler firing a waiting `run_timer` occurrence `o`: being
        scheduled with `repeat=False`, `o` is dropped before `run_timer`
        runs, so the key waits again afterwards exactly when its handler
        replied and re-arming it succeeded, and then once, fitting its
        spec; a handler that raised leaves it unscheduled. */
    method FireTimer(o: Occurrence, body: Body) returns (result: Result<Reply>)
      requires Valid() && o in client.scheduler && o.action.RunTimerAction?
      modifies client
      ensures Valid()
      ensures var key := o.action.key;
              var st := TimerStep(objects, timers, body, key, o.action.kwargs);
              result == st.result &&
              client.sent == old(client.sent) + st.sends &&
              client.schedules == old(client.schedules) + (if st.rearmed && st.result.Ok? then [TimerName(key)] else []) &&
              (o.name == TimerName(key) ==>
                 (IsScheduled(client.scheduler, TimerName(key)) <==> st.rearmed && st.result.Ok?)) &&
              (o.name == TimerName(key) &&
               (BindsTwice(o.action.kwargs) || Invoke(objects, body, TimerCall(key, o.action.kwargs)).HandlerFailed?) ==>
                 !IsScheduled(client.scheduler, TimerName(key))) &&
              ArmedFrom(client.scheduler, timers, if st.rearmed && st.result.Ok? then {TimerName(key)} else {}) &&
              Keeps(old(client.scheduler), client.scheduler, {o.name, TimerName(key)})
      ensures client.joined == old(client.joined)
    {
      var key := o.action.key;
      ghost var st := TimerStep(objects, timers, body, key, o.action.kwargs);
      ghost var s0 := client.scheduler;
      var found := client.Remove(o.name);
      ghost var s1 := client.scheduler;
      NameSetScheduled(s1);
      result := RunTimer(key, o.action.kwargs, body);
      NameSetScheduled(client.scheduler);
      assert SchedNames(StepRun(0, key, st).rearmed) == if st.rearmed && st.result.Ok? then [TimerName(key)] else [];
      assert TimerNames(StepRun(0, key, st).rearmed) == if st.rearmed && st.result.Ok? then {TimerName(key)} else {};
      assert Touched(StepRun(0, key, st)) <= {TimerName(key)};
    }
  }
}
