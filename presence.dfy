/** The multi-user-chat presence handlers of `Muc`
    (mtj/jibber/presence.py): rejoining a room the bot was removed from,
    at once or after a delay, and greeting chosen occupants when they
    arrive. They act on the bot's client: its scheduler, its log of joined
    rooms and its outbound messages. */
module Presence {
  import opened Common
  import opened Markup
  import opened Replies
  import opened Transport

  /** An XMPP address: the bare `user@host` part and the resource, which
      in a room is the occupant's nickname. */
  datatype Jid = Jid(bare: string, resource: string)

  /** `str(jid)`: the bare address, followed by `/resource` when there is
      one. */
  function FullJid(j: Jid): string
  {
    if j.resource == [] then j.bare else j.bare + "/" + j.resource
  }

  /** The fields of a presence stanza the handlers read: the recipient,
      the sender and the occupant's role, when the stanza carries one. */
  datatype PresenceMsg = PresenceMsg(to: string, from: Jid, role: Option<string>)

  /** `template % {'name': name}`: Python's `%` formatting with a mapping
      argument, left abstract. It raises for a malformed template or one
      naming another key. */
  type Render = (string, string) -> Result<string>

  const DefaultGreetMsg: string := "Hello %(name)s"
  const DefaultGreetRole: seq<string> := ["participant"]

  /** What `auto_rejoin` decides for one presence: nothing, a join now,
      or a join scheduled under a name. */
  datatype Rejoin = Ignore | JoinNow(room: string, nick: string) | ScheduleRejoin(o: Occurrence)

  /** The scheduler name of the pending rejoin of `room`. */
  function RejoinName(room: string): SchedName
  {
    Named("Rejoin " + room)
  }

  /** What a rejoin decision does to the client: a join is logged at once;
      a scheduled rejoin is added unless its name is already waiting, in
      which case the scheduler's ValueError is caught and nothing changes. */
  function Apply(c: Snapshot, d: Rejoin): Snapshot
  {
    match d
    case Ignore => c
    case JoinNow(room, nick) => c.(joined := c.joined + [(room, nick)])
    case ScheduleRejoin(o) =>
      if IsScheduled(c.scheduler, o.name) then c
      else c.(scheduler := c.scheduler + [o], schedules := c.schedules + [o.name])
  }

  /** A repeated scheduled rejoin is absorbed: applying it twice is
      applying it once, and afterwards exactly one occurrence under that
      name is waiting when names were distinct before. */
  lemma ScheduledRejoinOnce(c: Snapshot, o: Occurrence)
    requires DistinctNames(c.scheduler)
    ensures Apply(Apply(c, ScheduleRejoin(o)), ScheduleRejoin(o)) == Apply(c, ScheduleRejoin(o))
    ensures IsScheduled(Apply(c, ScheduleRejoin(o)).scheduler, o.name)
    ensures DistinctNames(Apply(c, ScheduleRejoin(o)).scheduler)
    ensures Apply(c, ScheduleRejoin(o)).joined == c.joined && Apply(c, ScheduleRejoin(o)).sent == c.sent
  {
    if !IsScheduled(c.scheduler, o.name) {
      AppendFreshName(c.scheduler, o);
    }
  }

  /** An immediate join is not absorbed: each one is logged. */
  lemma JoinNowRepeats(c: Snapshot, room: string, nick: string)
    ensures Apply(Apply(c, JoinNow(room, nick)), JoinNow(room, nick)).joined ==
      c.joined + [(room, nick), (room, nick)]
    ensures Apply(c, JoinNow(room, nick)).scheduler == c.scheduler
  {
  }

  class Muc {
    /** Seconds to wait before rejoining; 0 rejoins at once. */
    const autoRejoinTimeout: int
    /** Full addresses (`room@host/nick`) of the occupants to greet. */
    const greet: set<string>
    /** The greeting template, with a `name` placeholder. */
    const greetMsg: string
    /** The roles an occupant must hold to be greeted. */
    const greetRole: seq<string>

    /** `Muc(auto_rejoin_timeout=0, greet=None, greet_msg=..., greet_role=[...])`:
        a missing or empty `greet` means nobody is greeted. */
    constructor (autoRejoinTimeout: int := 0, greet: Option<seq<string>> := None,
                 greetMsg: string := DefaultGreetMsg, greetRole: seq<string> := DefaultGreetRole)
      ensures this.autoRejoinTimeout == autoRejoinTimeout
      ensures greet.None? ==> this.greet == {}
      ensures greet.Some? ==> forall a :: a in this.greet <==> a in greet.value
      ensures this.greetMsg == greetMsg && this.greetRole == greetRole
    {
      this.autoRejoinTimeout := autoRejoinTimeout;
      this.greet := if greet.Some? then set a | a in greet.value else {};
      this.greetMsg := greetMsg;
      this.greetRole := greetRole;
    }

    /** `auto_rejoin` for a presence: only when the presence is addressed
        to this bot and concerns its own nickname; then a join of the room
        under the bot's nickname, at once when the timeout is 0 and
        otherwise scheduled as 'Rejoin <room>' after the timeout. */
    function RejoinPlan(msg: PresenceMsg, botJid: string, botNick: string): (d: Rejoin)
      ensures d.Ignore? <==> msg.to != botJid || msg.from.resource != botNick
      ensures d.JoinNow? <==> !d.Ignore? && autoRejoinTimeout == 0
      ensures d.JoinNow? ==> d == JoinNow(msg.from.bare, botNick)
      ensures d.ScheduleRejoin? ==>
        d.o == Occurrence(RejoinName(msg.from.bare), autoRejoinTimeout, JoinAction(msg.from.bare, botNick))
    {
      if msg.to != botJid || msg.from.resource != botNick then Ignore
      else if autoRejoinTimeout != 0 then
        ScheduleRejoin(Occurrence(RejoinName(msg.from.bare), autoRejoinTimeout, JoinAction(msg.from.bare, botNick)))
      else JoinNow(msg.from.bare, botNick)
    }

    /** `auto_rejoin(msg, bot)`, acting on the bot's client. */
    method AutoRejoin(msg: PresenceMsg, botJid: string, botNick: string, client: Client)
      requires client.Valid()
      modifies client
      ensures client.Valid()
      ensures client.State() == Apply(old(client.State()), RejoinPlan(msg, botJid, botNick))
    {
      if msg.to != botJid || msg.from.resource != botNick {
        return;
      }
      var target := msg.from.bare;
      if autoRejoinTimeout != 0 {
        var _ := client.Schedule(Occurrence(RejoinName(target), autoRejoinTimeout, JoinAction(target, botNick)));
      } else {
        client.JoinMuc(target, botNick);
      }
    }

    /** Both guards of `greeter`: a non-empty `greet` holding the sender's
        full address, and an occupant role among `greetRole`. */
    predicate Greets(msg: PresenceMsg)
    {
      greet != {} && FullJid(msg.from) in greet && msg.role.Some? && msg.role.value in greetRole
    }

    /** `greeter` as written: the rendered greeting is passed to
        `send_message` both positionally, where it binds `raw`, and as
        `raw=`, so every greeting that gets that far is a TypeError; a
        template that does not render raises first. */
    function GreeterAsWritten(msg: PresenceMsg, render: Render): (r: Result<Option<Send>>)
      ensures !Greets(msg) ==> r == Ok(None)
      ensures Greets(msg) ==> r.Raised?
      ensures Greets(msg) && render(greetMsg, msg.from.resource).Ok? ==> r == Raised(TypeError)
    {
      if !Greets(msg) then Ok(None)
      else match render(greetMsg, msg.from.resource)
        case Raised(e) => Raised(e)
        case Ok(_) => Raised(TypeError)
    }

    /** `greeter` as intended: the greeting, `greetMsg` with the sender's
        nickname as `name`, sent into the room (the sender's bare address)
        as a groupchat message. */
    function GreeterIntended(msg: PresenceMsg, render: Render): (r: Result<Option<Send>>)
      ensures !Greets(msg) ==> r == Ok(None)
      ensures Greets(msg) && render(greetMsg, msg.from.resource).Raised? ==>
        r == Raised(render(greetMsg, msg.from.resource).error)
      ensures Greets(msg) && render(greetMsg, msg.from.resource).Ok? ==>
        var text := render(greetMsg, msg.from.resource).value;
        && r.Ok? && r.value.Some?
        && r.value.value.mto == msg.from.bare
        && r.value.value.extra == map["mtype" := "groupchat"]
        && (IsHtml(text) ==> r.value.value.mhtml == Some(text) && !HasTag(r.value.value.mbody))
        && (!IsHtml(text) ==> r.value.value.mhtml.None? && r.value.value.mbody == text)
    {
      if !Greets(msg) then Ok(None)
      else match render(greetMsg, msg.from.resource)
        case Raised(e) => Raised(e)
        case Ok(text) =>
          var s := SendMessage(text, msg.from.bare, map["mtype" := "groupchat"]);
          assert s.Ok?;
          Ok(Some(s.value))
    }

    /** The greeter, acting on the bot's client with the intended call. */
    method Greeter(msg: PresenceMsg, render: Render, client: Client) returns (error: Option<Exc>)
      requires client.Valid()
      modifies client
      ensures client.Valid()
      ensures GreeterIntended(msg, render).Raised? <==> error.Some?
      ensures error.Some? ==> error.value == GreeterIntended(msg, render).error
      ensures GreeterIntended(msg, render) == Ok(None) ==> client.sent == old(client.sent)
      ensures GreeterIntended(msg, render).Ok? && GreeterIntended(msg, render).value.Some? ==>
        client.sent == old(client.sent) + [GreeterIntended(msg, render).value.value]
      ensures client.scheduler == old(client.scheduler) && client.schedules == old(client.schedules)
      ensures client.joined == old(client.joined)
    {
      if !Greets(msg) {
        return None;
      }
      var raw := render(greetMsg, msg.from.resource);
      if raw.Raised? {
        return Some(raw.error);
      }
      var s := SendMessage(raw.value, msg.from.bare, map["mtype" := "groupchat"]);
      client.SendMessage(s.value);
      error := None;
    }
  }

  /** As written, `greeter` never sends anything: whenever it would greet,
      it raises instead. */
  lemma GreeterNeverSends(m: Muc, msg: PresenceMsg, render: Render)
    ensures !(m.GreeterAsWritten(msg, render).Ok? && m.GreeterAsWritten(msg, render).value.Some?)
  {
  }

  /** An occupant the configuration names, in a greeted role, with a
      template that renders: the intended greeter sends the greeting while
      the code as written raises a TypeError. */
  lemma GreeterMismatch(m: Muc, msg: PresenceMsg, render: Render)
    requires m.greet == {FullJid(msg.from)} && m.greetRole == DefaultGreetRole
    requires msg.role == Some("participant")
    requires render(m.greetMsg, msg.from.resource).Ok?
    ensures m.GreeterAsWritten(msg, render) == Raised(TypeError)
    ensures m.GreeterIntended(msg, render).Ok? && m.GreeterIntended(msg, render).value.Some?
  {
    assert m.Greets(msg);
  }
}
