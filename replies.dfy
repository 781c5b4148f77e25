/** Reply normalisation of `MucChatBot` (mtj/jibber/jabber.py): how the raw
    value a handler returns becomes zero or more calls of the transport's
    `send_message`, and how `send_message` decides between plain text and
    HTML. Everything here is a pure function of the reply and the caller's
    keyword arguments. */
module Replies {
  import opened Common
  import opened Markup

  /** Keyword arguments and reply dictionaries; values are text. */
  type Kwargs = map<string, string>

  /** An entry of a list reply: a dictionary, or anything else (None, a
      string, a number), which `send_raw` logs and skips. */
  datatype Item = DictItem(fields: Kwargs) | NonDict

  /** The raw value a handler method returns. `Other` is any other Python
      object; only its truthiness matters to the dispatcher. */
  datatype Reply =
    | NoReply
    | Text(text: string)
    | Dict(fields: Kwargs)
    | List(items: seq<Item>)
    | Other(truthy: bool)

  /** Python truthiness of a reply: None, '', {} and [] are false. */
  predicate Truthy(r: Reply)
  {
    match r
    case NoReply => false
    case Text(s) => s != ""
    case Dict(d) => d != map[]
    case List(xs) => xs != []
    case Other(t) => t
  }

  /** One call of the transport's `send_message(mto=, mbody=, mhtml=, **extra)`. */
  datatype Send = Send(mto: string, mbody: string, mhtml: Option<string>, extra: Kwargs)

  /** The sends produced by one reply, and the exception that stopped
      them, if any (sends made before the exception stay made). */
  datatype Emit = Emit(sends: seq<Send>, error: Option<Exc>)

  /** The fixed HTML openers `send_message` recognises. */
  predicate IsHtml(raw: string)
  {
    StartsWith(raw, "<p>") || StartsWith(raw, "<html>") || StartsWith(raw, "<!")
  }

  /** `send_message(raw, mto, **extra)`: an HTML body travels as `mhtml`
      with its tag-stripped text as `mbody`; any other body travels as
      `mbody` alone. The client call names `mbody` and `mhtml` itself, so
      an extra keyword of either name is a TypeError. */
  function SendMessage(raw: string, mto: string, extra: Kwargs): (r: Result<Send>)
    ensures r.Ok? <==> "mbody" !in extra && "mhtml" !in extra
    ensures r.Ok? ==> r.value.mto == mto && r.value.extra == extra
    ensures r.Ok? ==> (r.value.mhtml.Some? <==> IsHtml(raw))
    ensures r.Ok? && IsHtml(raw) ==> r.value.mhtml == Some(raw) && !HasTag(r.value.mbody)
    ensures r.Ok? && !IsHtml(raw) ==> r.value.mbody == raw
  {
    if "mbody" in extra || "mhtml" in extra then Raised(TypeError)
    else if IsHtml(raw) then
      StripTagsLeavesNoTag(raw);
      Ok(Send(mto, StripTags(raw), Some(raw), extra))
    else Ok(Send(mto, raw, None, extra))
  }

  /** `send_message(**response)`: `raw` and `mto` must be present, and a
      `self` entry binds the bound method's own parameter twice (each a
      TypeError); every other entry is passed through. */
  function SendResponse(response: Kwargs): (r: Result<Send>)
    ensures ("raw" !in response || "mto" !in response) ==> r == Raised(TypeError)
    ensures "self" in response ==> r == Raised(TypeError)
    ensures r.Ok? ==> r.value.mto == response["mto"]
    ensures r.Ok? ==> forall k :: k in r.value.extra <==> k in response && k != "raw" && k != "mto"
  {
    if "raw" !in response || "mto" !in response || "self" in response then Raised(TypeError)
    else SendMessage(response["raw"], response["mto"], response - {"raw", "mto"})
  }

  /** A string reply: `send_message(raw=reply, **kwargs)`; a `raw` among the
      caller's kwargs is passed twice, which is a TypeError. */
  function TextSend(s: string, kwargs: Kwargs): (r: Result<Send>)
    ensures "raw" in kwargs ==> r == Raised(TypeError)
  {
    if "raw" in kwargs then Raised(TypeError)
    else SendResponse(kwargs["raw" := s])
  }

  /** A dictionary reply, `send_raw`: the caller's kwargs overridden by the
      dictionary's own entries. */
  function DictSend(d: Kwargs, kwargs: Kwargs): Result<Send>
  {
    SendResponse(kwargs + d)
  }

  /** The sends of a list reply: one per dictionary entry, in order,
      skipping every other entry; an exception ends the list. */
  function ListSends(items: seq<Item>, kwargs: Kwargs): (e: Emit)
    ensures |e.sends| <= |items|
  {
    if items == [] then Emit([], None)
    else match items[0]
      case NonDict => ListSends(items[1..], kwargs)
      case DictItem(d) =>
        match DictSend(d, kwargs)
        case Raised(x) => Emit([], Some(x))
        case Ok(m) =>
          var rest := ListSends(items[1..], kwargs);
          Emit([m] + rest.sends, rest.error)
  }

  /** One entry of a list reply, taken from the front. */
  lemma ListSendsStep(items: seq<Item>, kwargs: Kwargs)
    requires items != []
    ensures items[0].NonDict? ==> ListSends(items, kwargs) == ListSends(items[1..], kwargs)
    ensures items[0].DictItem? && DictSend(items[0].fields, kwargs).Raised? ==>
      ListSends(items, kwargs) == Emit([], Some(DictSend(items[0].fields, kwargs).error))
    ensures items[0].DictItem? && DictSend(items[0].fields, kwargs).Ok? ==>
      ListSends(items, kwargs) ==
        Emit([DictSend(items[0].fields, kwargs).value] + ListSends(items[1..], kwargs).sends,
             ListSends(items[1..], kwargs).error)
  {
  }

  /** `send_package_method`'s fan-out of a reply into sends. */
  function Normalize(reply: Reply, kwargs: Kwargs): (e: Emit)
    ensures reply.NoReply? || reply.Other? ==> e == Emit([], None)
    ensures reply.Text? || reply.Dict? ==> |e.sends| + (if e.error.Some? then 1 else 0) == 1
  {
    match reply
    case NoReply => Emit([], None)
    case Other(_) => Emit([], None)
    case Text(s) =>
      (match TextSend(s, kwargs)
       case Ok(m) => Emit([m], None)
       case Raised(x) => Emit([], Some(x)))
    case Dict(d) =>
      (match DictSend(d, kwargs)
       case Ok(m) => Emit([m], None)
       case Raised(x) => Emit([], Some(x)))
    case List(items) => ListSends(items, kwargs)
  }

  /** The dictionary entries of a list, in order. */
  function DictsOf(items: seq<Item>): (ds: seq<Kwargs>)
    ensures |ds| <= |items|
  {
    if items == [] then []
    else match items[0]
      case NonDict => DictsOf(items[1..])
      case DictItem(d) => [d] + DictsOf(items[1..])
  }

  /** Each of `sends` is the send of the dictionary at the same position
      of `ds`. */
  predicate SendsOfDicts(sends: seq<Send>, ds: seq<Kwargs>, kwargs: Kwargs)
  {
    |sends| <= |ds| && forall k :: 0 <= k < |sends| ==> DictSend(ds[k], kwargs) == Ok(sends[k])
  }

  lemma SendsOfDictsCons(m: Send, sends: seq<Send>, d: Kwargs, ds: seq<Kwargs>, kwargs: Kwargs)
    requires SendsOfDicts(sends, ds, kwargs) && DictSend(d, kwargs) == Ok(m)
    ensures SendsOfDicts([m] + sends, [d] + ds, kwargs)
  {
    var s', ds' := [m] + sends, [d] + ds;
    forall k | 0 <= k < |s'|
      ensures DictSend(ds'[k], kwargs) == Ok(s'[k])
    {
      if k > 0 {
        assert ds'[k] == ds[k - 1] && s'[k] == sends[k - 1];
      }
    }
  }

  /** Every send a list reply makes is the send of the dictionary entry
      at the same position among the dictionary entries. */
  lemma {:induction false} ListSendsPrefix(items: seq<Item>, kwargs: Kwargs)
    ensures SendsOfDicts(ListSends(items, kwargs).sends, DictsOf(items), kwargs)
  {
    if items != [] {
      ListSendsStep(items, kwargs);
      ListSendsPrefix(items[1..], kwargs);
      match items[0]
      case NonDict =>
      case DictItem(d) =>
        if DictSend(d, kwargs).Ok? {
          assert DictsOf(items) == [d] + DictsOf(items[1..]);
          SendsOfDictsCons(DictSend(d, kwargs).value, ListSends(items[1..], kwargs).sends,
                           d, DictsOf(items[1..]), kwargs);
        }
    }
  }

  /** When no send fails, a list reply gives exactly one send per
      dictionary entry, in the entries' order, each being that entry
      merged over the caller's kwargs; None and other entries give none. */
  lemma {:induction false} ListSendsPerDict(items: seq<Item>, kwargs: Kwargs)
    requires ListSends(items, kwargs).error.None?
    ensures |ListSends(items, kwargs).sends| == |DictsOf(items)|
    ensures forall k :: 0 <= k < |DictsOf(items)| ==>
      DictSend(DictsOf(items)[k], kwargs) == Ok(ListSends(items, kwargs).sends[k])
  {
    ListSendsCount(items, kwargs);
    ListSendsPrefix(items, kwargs);
  }

  lemma {:induction false} ListSendsCount(items: seq<Item>, kwargs: Kwargs)
    requires ListSends(items, kwargs).error.None?
    ensures |ListSends(items, kwargs).sends| == |DictsOf(items)|
  {
    if items != [] {
      ListSendsStep(items, kwargs);
      ListSendsCount(items[1..], kwargs);
    }
  }

  /** A failing send stops the list: the sends made are those of the
      dictionary entries before the failing one. */
  lemma ListSendsStopsAtFailure(items: seq<Item>, kwargs: Kwargs)
    requires ListSends(items, kwargs).error.Some?
    ensures |ListSends(items, kwargs).sends| < |DictsOf(items)|
    ensures DictSend(DictsOf(items)[|ListSends(items, kwargs).sends|], kwargs)
            == Raised(ListSends(items, kwargs).error.value)
    ensures forall k :: 0 <= k < |ListSends(items, kwargs).sends| ==>
      DictSend(DictsOf(items)[k], kwargs) == Ok(ListSends(items, kwargs).sends[k])
  {
    ListSendsFailure(items, kwargs);
    ListSendsPrefix(items, kwargs);
  }

  /** `e` stopped at the send of the dictionary of `ds` just after the
      sends it made. */
  predicate FailsAt(e: Emit, ds: seq<Kwargs>, kwargs: Kwargs)
  {
    e.error.Some? && |e.sends| < |ds| && DictSend(ds[|e.sends|], kwargs) == Raised(e.error.value)
  }

  lemma FailsAtCons(m: Send, e: Emit, d: Kwargs, ds: seq<Kwargs>, kwargs: Kwargs)
    requires FailsAt(e, ds, kwargs)
    ensures FailsAt(Emit([m] + e.sends, e.error), [d] + ds, kwargs)
  {
    assert ([d] + ds)[|[m] + e.sends|] == ds[|e.sends|];
  }

  lemma {:induction false} ListSendsFailure(items: seq<Item>, kwargs: Kwargs)
    requires ListSends(items, kwargs).error.Some?
    ensures FailsAt(ListSends(items, kwargs), DictsOf(items), kwargs)
  {
    ListSendsStep(items, kwargs);
    var ds := DictsOf(items[1..]);
    match items[0]
    case NonDict =>
      assert DictsOf(items) == ds;
      ListSendsFailure(items[1..], kwargs);
    case DictItem(d) =>
      assert DictsOf(items) == [d] + ds;
      if DictSend(d, kwargs).Ok? {
        ListSendsFailure(items[1..], kwargs);
        FailsAtCons(DictSend(d, kwargs).value, ListSends(items[1..], kwargs), d, ds, kwargs);
      } else {
        assert FailsAt(ListSends(items, kwargs), [d] + ds, kwargs);
      }
  }

  /** Inserting non-dictionary entries (None, say) anywhere changes nothing. */
  lemma {:induction false} ListSendsIgnoresNonDict(items: seq<Item>, kwargs: Kwargs)
    ensures ListSends(items, kwargs) == ListSends(DictItems(DictsOf(items)), kwargs)
  {
    if items != [] {
      ListSendsIgnoresNonDict(items[1..], kwargs);
      match items[0]
      case NonDict =>
      case DictItem(d) =>
        assert DictItems(DictsOf(items))[1..] == DictItems(DictsOf(items[1..]));
    }
  }

  /** The list of dictionaries as list entries. */
  function DictItems(ds: seq<Kwargs>): (items: seq<Item>)
    ensures |items| == |ds|
    ensures forall k :: 0 <= k < |ds| ==> items[k] == DictItem(ds[k])
  {
    if ds == [] then [] else [DictItem(ds[0])] + DictItems(ds[1..])
  }

  /** A dictionary reply's entries win over the caller's kwargs, and the
      caller's other kwargs are kept. */
  lemma DictOverrides(d: Kwargs, kwargs: Kwargs, key: string)
    requires DictSend(d, kwargs).Ok? && key != "raw" && key != "mto"
    ensures key in d ==> DictSend(d, kwargs).value.extra[key] == d[key]
    ensures key !in d && key in kwargs ==> DictSend(d, kwargs).value.extra[key] == kwargs[key]
    ensures key !in d && key !in kwargs ==> key !in DictSend(d, kwargs).value.extra
  {
  }

  /** A string reply is sent with the caller's kwargs: to the caller's
      `mto`, with the caller's other entries passed through. */
  lemma TextUsesCallerKwargs(s: string, kwargs: Kwargs)
    requires "mto" in kwargs && "raw" !in kwargs && "self" !in kwargs && "mbody" !in kwargs && "mhtml" !in kwargs
    ensures Normalize(Text(s), kwargs).error.None?
    ensures Normalize(Text(s), kwargs).sends ==
      [Send(kwargs["mto"], if IsHtml(s) then StripTags(s) else s,
            if IsHtml(s) then Some(s) else None, kwargs - {"mto"})]
  {
    var resp := kwargs["raw" := s];
    assert resp - {"raw", "mto"} == kwargs - {"mto"};
  }

  /** An empty string is falsy, yet it is still sent (as an empty body). */
  lemma EmptyTextSentButFalsy(kwargs: Kwargs)
    requires "mto" in kwargs && "raw" !in kwargs && "self" !in kwargs && "mbody" !in kwargs && "mhtml" !in kwargs
    ensures !Truthy(Text(""))
    ensures |Normalize(Text(""), kwargs).sends| == 1
  {
    TextUsesCallerKwargs("", kwargs);
  }
}
