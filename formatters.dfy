/** The reply formatters of the bundled command packages: `do_things`,
    which echoes a requested action back without its trailing
    punctuation, and `fortune`, which quotes a fortune as plain text or,
    when the fortune looks like markup, as an HTML document. The fortune
    itself comes from an external source and is an input here. */
module Formatters {
  import opened Common
  import opened Markup
  import opened Replies

  // ---------------------------------------------------------------------
  // Trailing punctuation

  /** The class `[.?!,]` of `do_things`'s pattern. */
  predicate IsPunct(c: char)
  {
    c == '.' || c == '?' || c == '!' || c == ','
  }

  /** `s` without its maximal trailing run of punctuation. */
  function StripPunctuation(s: string): (r: string)
    ensures |r| <= |s| && r == s[..|r|]
    ensures forall i :: |r| <= i < |s| ==> IsPunct(s[i])
    ensures r == [] || !IsPunct(r[|r| - 1])
    decreases |s|
  {
    if s != [] && IsPunct(s[|s| - 1]) then StripPunctuation(s[..|s| - 1]) else s
  }

  /** Substituting `''` for `[.?!,]*$`: Python's `$` also matches just
      before a final newline, and the leftmost match wins, so when the
      text ends in a newline it is the run before that newline that goes
      and the newline stays. */
  function StripAction(s: string): string
  {
    if s != [] && s[|s| - 1] == '\n' then StripPunctuation(s[..|s| - 1]) + "\n"
    else StripPunctuation(s)
  }

  /** Where the action is cut: at `k`, the start of the maximal run of
      punctuation that ends at `e`, the end of the text or its final
      newline; what follows `e` (that newline) is kept. */
  lemma StripActionCut(s: string) returns (k: nat, e: nat)
    ensures e == (if s != [] && s[|s| - 1] == '\n' then |s| - 1 else |s|)
    ensures k <= e && StripAction(s) == s[..k] + s[e..]
    ensures forall i :: k <= i < e ==> IsPunct(s[i])
    ensures k == 0 || !IsPunct(s[k - 1])
  {
    e := if s != [] && s[|s| - 1] == '\n' then |s| - 1 else |s|;
    var p := StripPunctuation(s[..e]);
    k := |p|;
    assert p == s[..k];
    assert s[..e][..k] == s[..k];
    if e < |s| {
      assert s[e..] == "\n";
    } else {
      assert s[e..] == [];
    }
    forall i | k <= i < e
      ensures IsPunct(s[i])
    {
      assert s[..e][i] == s[i];
    }
  }

  /** Exactly the maximal trailing run goes: the kept text is a prefix,
      everything dropped is punctuation, and what is kept does not end
      in punctuation. */
  lemma StripPunctuationMaximal(s: string, k: nat)
    requires k <= |s|
    requires forall i :: k <= i < |s| ==> IsPunct(s[i])
    requires k == 0 || !IsPunct(s[k - 1])
    ensures StripPunctuation(s) == s[..k]
  {
    var r := StripPunctuation(s);
    if |r| < k {
      assert false;
    } else if |r| > k {
      assert r[|r| - 1] == s[|r| - 1];
    }
  }

  /** Text that does not end in punctuation is left alone. */
  lemma StripPunctuationKeepsUnpunctuated(s: string)
    requires s == [] || !IsPunct(s[|s| - 1])
    ensures StripPunctuation(s) == s
  {
  }

  /** Stripping twice changes nothing. */
  lemma StripPunctuationIdempotent(s: string)
    ensures StripPunctuation(StripPunctuation(s)) == StripPunctuation(s)
  {
    StripPunctuationKeepsUnpunctuated(StripPunctuation(s));
  }

  /** The action substitution is idempotent on text whose only newline,
      if any, is its last character, as a group matched by `(.*)` with an
      end-of-line anchor would be. */
  lemma StripActionIdempotent(s: string)
    requires forall i :: 0 <= i < |s| - 1 ==> s[i] != '\n'
    ensures StripAction(StripAction(s)) == StripAction(s)
  {
    if s != [] && s[|s| - 1] == '\n' {
      var p := StripPunctuation(s[..|s| - 1]);
      assert StripAction(s)[..|p|] == p;
      StripPunctuationIdempotent(s[..|s| - 1]);
    } else {
      var p := StripPunctuation(s);
      assert p == [] || p[|p| - 1] == s[|p| - 1];
      StripPunctuationIdempotent(s);
    }
  }

  // ---------------------------------------------------------------------
  // do_things

  /** The fixed words of the `do_things` reply around the action. */
  function AgreeText(mucnick: string, action: string): string
  {
    mucnick + ": Okay, I will " + action + "."
  }

  /** `do_things(msg, match)`: the first group of the match, stripped of
      its trailing punctuation, in `'<mucnick>: Okay, I will <action>.'`.
      A match without groups is an IndexError; a first group that did
      not take part is `None`, which the substitution refuses with a
      TypeError. */
  function DoThings(mucnick: string, m: Match): (r: Result<string>)
    ensures m == [] <==> r == Raised(IndexError)
    ensures m != [] && m[0].None? <==> r == Raised(TypeError)
    ensures r.Ok? ==> m != [] && m[0].Some? && r.value == AgreeText(mucnick, StripAction(m[0].value))
  {
    if m == [] then Raised(IndexError)
    else if m[0].None? then Raised(TypeError)
    else Ok(AgreeText(mucnick, StripAction(m[0].value)))
  }

  /** The reply quotes an action that no longer ends in punctuation (the
      group matched by `(.*)` holds no newline), and the action is the
      group cut at the start of its trailing punctuation. */
  lemma DoThingsAction(mucnick: string, g: string)
    requires g == [] || g[|g| - 1] != '\n'
    ensures exists k ::
      && 0 <= k <= |g|
      && DoThings(mucnick, [Some(g)]) == Ok(AgreeText(mucnick, g[..k]))
      && (k == 0 || !IsPunct(g[k - 1]))
      && (forall i :: k <= i < |g| ==> IsPunct(g[i]))
  {
    var k := |StripPunctuation(g)|;
    assert DoThings(mucnick, [Some(g)]) == Ok(AgreeText(mucnick, g[..k]));
  }

  // ---------------------------------------------------------------------
  // fortune

  /** The characters Python's `str.isspace` accepts, which a bare
      `str.strip()` removes. */
  predicate IsSpace(c: char)
  {
    c == ' ' || ('\t' <= c <= '\r') || ('\U{1c}' <= c <= '\U{1f}') ||
    c == '\U{85}' || c == '\U{a0}' || c == '\U{1680}' || ('\U{2000}' <= c <= '\U{200a}') ||
    c == '\U{2028}' || c == '\U{2029}' || c == '\U{202f}' || c == '\U{205f}' || c == '\U{3000}'
  }

  /** `s` without its leading whitespace. */
  function TrimStart(s: string): (r: string)
    ensures |r| <= |s| && r == s[|s| - |r|..]
    ensures forall i :: 0 <= i < |s| - |r| ==> IsSpace(s[i])
    ensures r == [] || !IsSpace(r[0])
    decreases |s|
  {
    if s != [] && IsSpace(s[0]) then TrimStart(s[1..]) else s
  }

  /** `s` without its trailing whitespace. */
  function TrimEnd(s: string): (r: string)
    ensures |r| <= |s| && r == s[..|r|]
    ensures forall i :: |r| <= i < |s| ==> IsSpace(s[i])
    ensures r == [] || !IsSpace(r[|r| - 1])
    decreases |s|
  {
    if s != [] && IsSpace(s[|s| - 1]) then TrimEnd(s[..|s| - 1]) else s
  }

  /** `str.strip()`: the text between the leading and the trailing
      whitespace (`StripBounds`), which itself neither starts nor ends in
      whitespace. */
  function Strip(s: string): (r: string)
    ensures |r| <= |s|
    ensures r == [] || (!IsSpace(r[0]) && !IsSpace(r[|r| - 1]))
  {
    var e := TrimEnd(s);
    var r := TrimStart(e);
    assert r != [] ==> r[|r| - 1] == e[|e| - 1];
    r
  }

  /** What `Strip` keeps is one slice of the text, and all it drops on
      either side is whitespace. */
  lemma StripBounds(s: string) returns (a: nat, b: nat)
    ensures a <= b <= |s| && Strip(s) == s[a..b]
    ensures forall i :: 0 <= i < a ==> IsSpace(s[i])
    ensures forall i :: b <= i < |s| ==> IsSpace(s[i])
  {
    var e := TrimEnd(s);
    var r := TrimStart(e);
    a, b := |e| - |r|, |e|;
    assert r == e[a..] && e == s[..b];
    assert r == s[a..b];
    forall i | 0 <= i < a
      ensures IsSpace(s[i])
    {
      assert s[i] == e[i];
    }
  }

  /** `fortune(msg, match)` for a fortune text `text`: the stripped text
      after `'<mucnick>: '`, wrapped in `<html><body>…</body></html>` when
      it starts with `<`. */
  function Fortune(mucnick: string, text: string): string
  {
    var t := Strip(text);
    if !StartsWith(t, "<") then mucnick + ": " + t
    else "<html><body>" + mucnick + ": " + t + "</body></html>"
  }

  /** The fortune is quoted as the slice `text[a..b]` left once the
      surrounding whitespace is gone, which neither starts nor ends in
      whitespace: after `'<mucnick>: '` as it is, or wrapped in an HTML
      document when it starts with `<`. */
  lemma FortuneQuotes(mucnick: string, text: string) returns (a: nat, b: nat)
    ensures a <= b <= |text|
    ensures forall i :: 0 <= i < a ==> IsSpace(text[i])
    ensures forall i :: b <= i < |text| ==> IsSpace(text[i])
    ensures a < b ==> !IsSpace(text[a]) && !IsSpace(text[b - 1])
    ensures (a == b || text[a] != '<') ==> Fortune(mucnick, text) == mucnick + ": " + text[a..b]
    ensures a < b && text[a] == '<' ==>
      Fortune(mucnick, text) == "<html><body>" + mucnick + ": " + text[a..b] + "</body></html>"
  {
    a, b := StripBounds(text);
    var t := Strip(text);
    assert t == text[a..b];
    if a < b {
      assert t[0] == text[a] && t[|t| - 1] == text[b - 1];
      assert StartsWith(t, "<") <==> text[a] == '<' by {
        assert |t| >= 1 && t[..1] == [t[0]];
      }
    } else {
      assert !StartsWith(t, "<");
    }
  }

  /** A fortune that looks like markup goes out as HTML: `send_message`
      puts the document in `mhtml` and a tag-free text in `mbody`. */
  lemma FortuneMarkupIsHtml(mucnick: string, text: string, mto: string, extra: Kwargs)
    requires StartsWith(Strip(text), "<")
    requires "mbody" !in extra && "mhtml" !in extra
    ensures IsHtml(Fortune(mucnick, text))
    ensures SendMessage(Fortune(mucnick, text), mto, extra).Ok?
    ensures SendMessage(Fortune(mucnick, text), mto, extra).value.mhtml == Some(Fortune(mucnick, text))
    ensures !HasTag(SendMessage(Fortune(mucnick, text), mto, extra).value.mbody)
  {
    var r := Fortune(mucnick, text);
    assert r[..6] == "<html>";
  }

  /** A plain fortune for a nickname that does not start with `<` goes
      out as plain text, unchanged. */
  lemma FortunePlainIsText(mucnick: string, text: string, mto: string, extra: Kwargs)
    requires !StartsWith(Strip(text), "<")
    requires mucnick == [] || mucnick[0] != '<'
    requires "mbody" !in extra && "mhtml" !in extra
    ensures !IsHtml(Fortune(mucnick, text))
    ensures SendMessage(Fortune(mucnick, text), mto, extra) == Ok(Send(mto, Fortune(mucnick, text), None, extra))
  {
    var r := Fortune(mucnick, text);
    var head := if mucnick == [] then ':' else mucnick[0];
    assert r[0] == head;
    NoOpenerNotHtml(r);
  }

  /** Every opener `send_message` looks for starts with `<`. */
  lemma NoOpenerNotHtml(r: string)
    requires r == [] || r[0] != '<'
    ensures !IsHtml(r)
  {
    StartsWithFirst(r, "<p>");
    StartsWithFirst(r, "<html>");
    StartsWithFirst(r, "<!");
  }

  lemma StartsWithFirst(s: string, p: string)
    requires p != []
    ensures StartsWith(s, p) ==> s != [] && s[0] == p[0]
  {
    if StartsWith(s, p) {
      assert s[..|p|][0] == s[0];
    }
  }
}
