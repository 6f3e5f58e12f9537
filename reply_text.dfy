/**
 * Cleaning of the text a language model sends back: Python's `str.strip()`,
 * `str.strip(chars)` and the removal of Markdown code fences around a JSON reply.
 */
module ReplyText {

  /** The characters for which Python's `str.isspace()` holds; `str.strip()` removes these. */
  const Whitespace: set<char> := {
    '\t', '\n', '\U{0B}', '\U{0C}', '\r', '\U{1C}', '\U{1D}', '\U{1E}', '\U{1F}', ' ',
    '\U{85}', '\U{A0}', '\U{1680}', '\U{2000}', '\U{2001}', '\U{2002}', '\U{2003}',
    '\U{2004}', '\U{2005}', '\U{2006}', '\U{2007}', '\U{2008}', '\U{2009}', '\U{200A}',
    '\U{2028}', '\U{2029}', '\U{202F}', '\U{205F}', '\U{3000}'
  }

  const Fence: string := "```"
  const JsonFence: string := "```json"

  /** Removes the longest prefix made of characters in `drop`. */
  function LeftStrip(s: string, drop: set<char>): (r: string)
    ensures |r| <= |s| && r == s[|s| - |r|..]
    ensures r == [] || r[0] !in drop
    ensures forall i :: 0 <= i < |s| - |r| ==> s[i] in drop
  {
    if s != [] && s[0] in drop then LeftStrip(s[1..], drop) else s
  }

  /** Removes the longest suffix made of characters in `drop`. */
  function RightStrip(s: string, drop: set<char>): (r: string)
    ensures |r| <= |s| && r == s[..|r|]
    ensures r == [] || r[|r| - 1] !in drop
    ensures forall i :: |r| <= i < |s| ==> s[i] in drop
  {
    if s != [] && s[|s| - 1] in drop then RightStrip(s[..|s| - 1], drop) else s
  }

  /** Python's `s.strip(chars)`: both ends, for the characters in `drop`. */
  function StripWhere(s: string, drop: set<char>): (r: string)
    ensures r == [] || (r[0] !in drop && r[|r| - 1] !in drop)
    ensures |r| <= |s|
  {
    RightStrip(LeftStrip(s, drop), drop)
  }

  /**
   * `strip(chars)` keeps a contiguous slice of the text and removes only characters of
   * `drop` on either side of it.
   */
  lemma StripWhereIsSlice(s: string, drop: set<char>)
    ensures exists i, j ::
      && 0 <= i <= j <= |s| && StripWhere(s, drop) == s[i..j]
      && (forall k :: 0 <= k < i ==> s[k] in drop)
      && (forall k :: j <= k < |s| ==> s[k] in drop)
  {
    var left := LeftStrip(s, drop);
    TrimmedSlice(s, left, RightStrip(left, drop), drop);
  }

  /** A prefix of a suffix, each cut off at characters of `drop`, is a slice cut off at such characters. */
  lemma TrimmedSlice(s: string, left: string, r: string, drop: set<char>)
    requires |left| <= |s| && left == s[|s| - |left|..]
    requires forall k :: 0 <= k < |s| - |left| ==> s[k] in drop
    requires |r| <= |left| && r == left[..|r|]
    requires forall k :: |r| <= k < |left| ==> left[k] in drop
    ensures exists i, j ::
      && 0 <= i <= j <= |s| && r == s[i..j]
      && (forall k :: 0 <= k < i ==> s[k] in drop)
      && (forall k :: j <= k < |s| ==> s[k] in drop)
  {
    var i := |s| - |left|;
    var j := i + |r|;
    assert r == s[i..j];
    forall k | j <= k < |s| ensures s[k] in drop {
      assert s[k] == left[k - i];
    }
  }

  /** Python's `s.strip()`. */
  function Trim(s: string): string {
    StripWhere(s, Whitespace)
  }

  predicate StartsWith(s: string, prefix: string) {
    prefix <= s
  }

  predicate EndsWith(s: string, suffix: string) {
    |suffix| <= |s| && s[|s| - |suffix|..] == suffix
  }

  /** The middle of the fence removal: a leading "```json", then a leading "```", then a trailing "```". */
  function DropFences(t0: string): (t3: string)
    ensures |t3| <= |t0|
  {
    var t1 := if StartsWith(t0, JsonFence) then t0[|JsonFence|..] else t0;
    var t2 := if StartsWith(t1, Fence) then t1[|Fence|..] else t1;
    if EndsWith(t2, Fence) then t2[..|t2| - |Fence|] else t2
  }

  /**
   * The reply cleaning of `_create_initial_taxonomy` and `_process_chunk`: strip, drop the
   * fences, then strip again.
   */
  function StripFences(reply: string): string {
    Trim(DropFences(Trim(reply)))
  }

  /** The cleaned reply has no surrounding whitespace left. */
  lemma StripFencesIsTrimmed(reply: string)
    ensures Trim(StripFences(reply)) == StripFences(reply)
  {
    TrimIdempotent(DropFences(Trim(reply)));
  }

  /** Stripping a string that has no strippable end leaves it as it is. */
  lemma StripWhereOfStripped(s: string, drop: set<char>)
    requires s == [] || (s[0] !in drop && s[|s| - 1] !in drop)
    ensures StripWhere(s, drop) == s
  {
  }

  lemma TrimIdempotent(s: string)
    ensures Trim(Trim(s)) == Trim(s)
  {
    StripWhereOfStripped(Trim(s), Whitespace);
  }

  /** Padding made of characters in `drop` around a stripped core is exactly what strip removes. */
  lemma {:induction false} StripWherePadded(pre: string, core: string, post: string, drop: set<char>)
    requires forall i :: 0 <= i < |pre| ==> pre[i] in drop
    requires forall i :: 0 <= i < |post| ==> post[i] in drop
    requires core != [] && core[0] !in drop && core[|core| - 1] !in drop
    ensures StripWhere(pre + core + post, drop) == core
  {
    assert pre + core + post == pre + (core + post);
    LeftStripPadded(pre, core + post, drop);
    RightStripPadded(core, post, drop);
  }

  lemma {:induction false} LeftStripPadded(pre: string, rest: string, drop: set<char>)
    requires forall i :: 0 <= i < |pre| ==> pre[i] in drop
    requires rest != [] && rest[0] !in drop
    ensures LeftStrip(pre + rest, drop) == rest
    decreases |pre|
  {
    if pre != [] {
      var s := pre + rest;
      assert s[0] == pre[0] && s[0] in drop;
      assert s[1..] == pre[1..] + rest;
      assert LeftStrip(s, drop) == LeftStrip(s[1..], drop);
      assert forall i :: 0 <= i < |pre[1..]| ==> pre[1..][i] == pre[i + 1];
      LeftStripPadded(pre[1..], rest, drop);
    } else {
      assert pre + rest == rest;
    }
  }

  lemma {:induction false} RightStripPadded(rest: string, post: string, drop: set<char>)
    requires forall i :: 0 <= i < |post| ==> post[i] in drop
    requires rest != [] && rest[|rest| - 1] !in drop
    ensures RightStrip(rest + post, drop) == rest
    decreases |post|
  {
    if post != [] {
      var s := rest + post;
      assert s[..|s| - 1] == rest + post[..|post| - 1];
      RightStripPadded(rest, post[..|post| - 1], drop);
    } else {
      assert rest + post == rest;
    }
  }

  /**
   * A reply whose text, once the surrounding whitespace is gone, neither starts nor ends
   * with a fence is only stripped.
   */
  lemma UnfencedReplyIsOnlyTrimmed(pre: string, text: string, post: string)
    requires AllWhitespace(pre) && AllWhitespace(post)
    requires text != [] && text[0] !in Whitespace && text[|text| - 1] !in Whitespace
    requires !StartsWith(text, Fence) && !EndsWith(text, Fence)
    ensures StripFences(pre + text + post) == text
  {
    StripWherePadded(pre, text, post, Whitespace);
    DropFencesOfUnfenced(text);
    StripWhereOfStripped(text, Whitespace);
  }

  /** Text that neither starts nor ends with a fence has no fence to drop. */
  lemma DropFencesOfUnfenced(t: string)
    requires !StartsWith(t, Fence) && !EndsWith(t, Fence)
    ensures DropFences(t) == t
  {
  }

  predicate AllWhitespace(s: string) {
    forall i :: 0 <= i < |s| ==> s[i] in Whitespace
  }

  /**
   * A JSON body wrapped as "```json ... ```" with any surrounding whitespace is recovered
   * exactly, provided the body itself has no whitespace or backtick at either end.
   */
  lemma FencedReplyRecoversBody(pre: string, gap1: string, body: string, gap2: string, post: string)
    requires AllWhitespace(pre) && AllWhitespace(gap1) && AllWhitespace(gap2) && AllWhitespace(post)
    requires body != [] && body[0] !in Whitespace && body[|body| - 1] !in Whitespace
    requires body[0] != '`' && body[|body| - 1] != '`'
    ensures StripFences(pre + JsonFence + gap1 + body + gap2 + Fence + post) == body
  {
    var fenced := JsonFence + gap1 + body + gap2 + Fence;
    assert pre + JsonFence + gap1 + body + gap2 + Fence + post == pre + fenced + post;
    StripWherePadded(pre, fenced, post, Whitespace);
    DropFencesOfFenced(gap1, body, gap2);
    StripWherePadded(gap1, body, gap2, Whitespace);
  }

  lemma DropFencesOfFenced(gap1: string, body: string, gap2: string)
    requires AllWhitespace(gap1)
    requires body != [] && body[0] != '`'
    ensures DropFences(JsonFence + gap1 + body + gap2 + Fence) == gap1 + body + gap2
  {
    var t0 := JsonFence + gap1 + body + gap2 + Fence;
    assert StartsWith(t0, JsonFence);
    var t1 := t0[|JsonFence|..];
    assert t1 == gap1 + body + gap2 + Fence;
    assert t1[0] != '`' by {
      if gap1 != [] {
        assert t1[0] == gap1[0];
      } else {
        assert t1[0] == body[0];
      }
    }
    assert EndsWith(t1, Fence);
    assert t1[..|t1| - |Fence|] == gap1 + body + gap2;
  }

  /**
   * A body wrapped in bare "```" fences, with whitespace after the opening fence, is
   * recovered exactly as well.
   */
  lemma PlainFencedReplyRecoversBody(pre: string, gap1: string, body: string, gap2: string, post: string)
    requires AllWhitespace(pre) && AllWhitespace(gap1) && AllWhitespace(gap2) && AllWhitespace(post)
    requires gap1 != []
    requires body != [] && body[0] !in Whitespace && body[|body| - 1] !in Whitespace
    requires body[|body| - 1] != '`'
    ensures StripFences(pre + Fence + gap1 + body + gap2 + Fence + post) == body
  {
    var fenced := Fence + gap1 + body + gap2 + Fence;
    assert pre + Fence + gap1 + body + gap2 + Fence + post == pre + fenced + post;
    StripWherePadded(pre, fenced, post, Whitespace);
    DropFencesOfPlainFenced(gap1, body, gap2);
    StripWherePadded(gap1, body, gap2, Whitespace);
  }

  lemma DropFencesOfPlainFenced(gap1: string, body: string, gap2: string)
    requires AllWhitespace(gap1) && gap1 != []
    ensures DropFences(Fence + gap1 + body + gap2 + Fence) == gap1 + body + gap2
  {
    var t0 := Fence + gap1 + body + gap2 + Fence;
    assert t0[3] == gap1[0];
    assert !StartsWith(t0, JsonFence) by {
      assert JsonFence[3] == 'j';
    }
    assert StartsWith(t0, Fence);
    var t2 := t0[|Fence|..];
    assert t2 == gap1 + body + gap2 + Fence;
    assert EndsWith(t2, Fence);
    assert t2[..|t2| - |Fence|] == gap1 + body + gap2;
  }
}
