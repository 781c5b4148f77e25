/** The textual tag remover of mtj/jibber/utils.py: every span that starts
    with '<' and runs to the first following '>' is deleted, exactly as a
    global substitution of the pattern `<[^>]*>` by the empty string. */
module Markup {
  import opened Common

  /** `s` holds a '<' with a '>' somewhere after it, i.e. the pattern
      `<[^>]*>` occurs in `s`. */
  ghost predicate HasTag(s: string)
  {
    exists i, j :: 0 <= i < j < |s| && s[i] == '<' && s[j] == '>'
  }

  /** `r` can be obtained from `s` by deleting characters (greedy check). */
  ghost predicate IsSubsequence(r: string, s: string)
    decreases |s|
  {
    r == [] ||
    (s != [] &&
      if r[0] == s[0] then IsSubsequence(r[1..], s[1..]) else IsSubsequence(r, s[1..]))
  }

  /** Position of the first '>' in `s`. */
  function FirstClose(s: string): (k: nat)
    requires '>' in s
    ensures k < |s| && s[k] == '>' && '>' !in s[..k]
  {
    if s[0] == '>' then 0 else 1 + FirstClose(s[1..])
  }

  /** Left-to-right scan: at a '<' that has a '>' later, the whole span up
      to and including the first such '>' is dropped; any other character
      (including a '<' with no '>' after it) is kept. */
  function StripTags(s: string): (r: string)
    ensures |r| <= |s|
    decreases |s|
  {
    if s == [] then []
    else if s[0] == '<' && '>' in s then StripTags(s[FirstClose(s) + 1..])
    else [s[0]] + StripTags(s[1..])
  }

  /** `strip_tags(None)` is `None`; a string goes through `StripTags`. */
  function StripTagsOrNone(html: Option<string>): (r: Option<string>)
    ensures r.None? <==> html.None?
    ensures html.Some? ==> |r.value| <= |html.value|
  {
    match html
    case None => None
    case Some(s) => Some(StripTags(s))
  }

  /** Text without a tag is returned unchanged. */
  lemma {:induction false} StripTagsNoTag(s: string)
    requires !HasTag(s)
    ensures StripTags(s) == s
    decreases |s|
  {
    if s != [] {
      forall k | 0 < k < |s| && s[0] == '<' ensures s[k] != '>' {
      }
      assert !HasTag(s[1..]) by {
        forall i, j | 0 <= i < j < |s[1..]| && s[1..][i] == '<' ensures s[1..][j] != '>' {
          assert s[i + 1] == '<';
        }
      }
      StripTagsNoTag(s[1..]);
      assert s == [s[0]] + s[1..];
    }
  }

  /** Every character of the result occurs in the input. */
  lemma {:induction false} StripTagsChars(s: string, c: char)
    requires c in StripTags(s)
    ensures c in s
    decreases |s|
  {
    if s[0] == '<' && '>' in s {
      var k := FirstClose(s);
      StripTagsChars(s[k + 1..], c);
    } else if c != s[0] {
      StripTagsChars(s[1..], c);
    }
  }

  /** A character put in front of tag-free text keeps it tag-free unless
      it opens a tag that a later '>' closes. */
  lemma NoTagCons(c: char, rest: string)
    requires !HasTag(rest) && (c == '<' ==> '>' !in rest)
    ensures !HasTag([c] + rest)
  {
    var r := [c] + rest;
    forall i, j | 0 <= i < j < |r| && r[i] == '<' ensures r[j] != '>' {
      assert r[j] == rest[j - 1];
      if i > 0 {
        assert rest[i - 1] == '<';
      }
    }
  }

  /** The result never holds a '<' with a '>' after it. */
  lemma {:induction false} StripTagsLeavesNoTag(s: string)
    ensures !HasTag(StripTags(s))
    decreases |s|
  {
    if s == [] {
    } else if s[0] == '<' && '>' in s {
      StripTagsLeavesNoTag(s[FirstClose(s) + 1..]);
    } else {
      var rest := StripTags(s[1..]);
      StripTagsLeavesNoTag(s[1..]);
      if '>' in rest {
        StripTagsChars(s[1..], '>');
      }
      NoTagCons(s[0], rest);
    }
  }

  /** Stripping twice is stripping once. */
  lemma StripTagsIdempotent(s: string)
    ensures StripTags(StripTags(s)) == StripTags(s)
  {
    StripTagsLeavesNoTag(s);
    StripTagsNoTag(StripTags(s));
  }

  /** Stripping a string with tags changes it: the identity of
      StripTagsNoTag holds exactly on tag-free text. */
  lemma {:induction false} StripTagsChangesTagged(s: string)
    requires HasTag(s)
    ensures StripTags(s) != s
  {
    StripTagsLeavesNoTag(s);
  }

  lemma {:induction false} SubsequenceTail(r: string, s: string)
    requires r != [] && IsSubsequence(r, s)
    ensures IsSubsequence(r[1..], s)
    decreases |s|
  {
    if r[1..] != [] {
      if r[0] == s[0] {
        if r[1] == s[0] {
          SubsequenceTail(r[1..], s[1..]);
        }
      } else {
        SubsequenceTail(r, s[1..]);
        if r[1] == s[0] {
          SubsequenceTail(r[1..], s[1..]);
        }
      }
    }
  }

  lemma {:induction false} SubsequenceSkip(r: string, s: string)
    requires s != [] && IsSubsequence(r, s[1..])
    ensures IsSubsequence(r, s)
  {
    if r != [] && r[0] == s[0] {
      SubsequenceTail(r, s[1..]);
    }
  }

  lemma {:induction false} SubsequenceDrop(r: string, s: string, k: nat)
    requires k <= |s| && IsSubsequence(r, s[k..])
    ensures IsSubsequence(r, s)
    decreases k
  {
    if k > 0 {
      assert s[k..] == s[1..][k - 1..];
      SubsequenceDrop(r, s[1..], k - 1);
      SubsequenceSkip(r, s);
    }
  }

  /** The result is the input with some characters deleted. */
  lemma {:induction false} StripTagsSubsequence(s: string)
    ensures IsSubsequence(StripTags(s), s)
    decreases |s|
  {
    if s == [] {
    } else if s[0] == '<' && '>' in s {
      var k := FirstClose(s);
      StripTagsSubsequence(s[k + 1..]);
      SubsequenceDrop(StripTags(s), s, k + 1);
    } else {
      StripTagsSubsequence(s[1..]);
      var r := StripTags(s);
      assert r[0] == s[0] && r[1..] == StripTags(s[1..]);
    }
  }

  /** A prefix without '<' passes through untouched. */
  lemma {:induction false} StripTagsPlainPrefix(a: string, b: string)
    requires '<' !in a
    ensures StripTags(a + b) == a + StripTags(b)
  {
    if a != [] {
      assert (a + b)[0] == a[0] && (a + b)[1..] == a[1..] + b;
      assert a[0] in a;
      assert StripTags(a + b) == [a[0]] + StripTags(a[1..] + b);
      StripTagsPlainPrefix(a[1..], b);
      assert [a[0]] + (a[1..] + StripTags(b)) == a + StripTags(b);
    } else {
      assert a + b == b;
    }
  }

  /** A leading tag `<t>` (with no '>' inside `t`) is dropped whole. */
  lemma StripTagsLeadingTag(t: string, b: string)
    requires '>' !in t
    ensures StripTags("<" + t + ">" + b) == StripTags(b)
  {
    var s := "<" + t + ">" + b;
    assert s[|t| + 1] == '>';
    var k := FirstClose(s);
    assert s[..|t| + 1] == "<" + t;
    assert k == |t| + 1;
    assert s[k + 1..] == b;
  }

  /** Doctest: `None` maps to `None`. */
  lemma DocTestNone()
    ensures StripTagsOrNone(None) == None
  {
  }

  /** Doctest: tag-free text is unchanged. */
  lemma DocTestPlain()
    ensures StripTags("test string") == "test string"
  {
    StripTagsPlainPrefix("test string", "");
    assert "test string" + "" == "test string";
  }

  /** A span `<t>` preceded by tag-free text `a` is removed and nothing
      else in front of `b` changes. */
  lemma StripTagsSpan(a: string, t: string, b: string)
    requires '<' !in a && '>' !in t
    ensures StripTags(a + ("<" + t + ">" + b)) == a + StripTags(b)
  {
    StripTagsLeadingTag(t, b);
    StripTagsPlainPrefix(a, "<" + t + ">" + b);
  }

  /** Two spans around tag-free text: `a<t1>w<t2>` becomes `aw` (the
      doctest `test <b>string</b>` is the case a = "test ", w = "string"). */
  lemma StripTagsTwoSpans(a: string, t1: string, w: string, t2: string)
    requires '<' !in a && '<' !in w && '>' !in t1 && '>' !in t2
    ensures StripTags(a + ("<" + t1 + ">" + (w + ("<" + t2 + ">" + "")))) == a + w
  {
    StripTagsSpan(w, t2, "");
    assert w + StripTags("") == w;
    StripTagsSpan(a, t1, w + ("<" + t2 + ">" + ""));
  }

  /** Doctest: a string that is one tag becomes empty. */
  lemma DocTestSingleTag()
    ensures StripTags("<test string>") == ""
  {
    StripTagsLeadingTag("test string", "");
    assert "<test string>" == "<" + "test string" + ">" + "";
  }
}
