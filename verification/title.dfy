/** The title the browser derives from the first message of a chat
    (`autoRenameCurrentSessionFromText`): code is removed, white space is
    collapsed and trimmed, and the result is cut to 40 characters. Each
    regular-expression replacement is a left-to-right scan, as the global
    flag makes it. */
module Title {
  import opened Options
  import opened Text
  import Seqs

  const Fence: string := "```"
  const Tick: char := '`'
  const TitleLength: nat := 40
  const Ellipsis: string := "\U{2026}"

  /** Three backticks start at position `k` of `s`. */
  predicate FenceStartsAt(s: string, k: int) {
    0 <= k && k + 3 <= |s| && s[k..k + 3] == Fence
  }

  /** The first position at or after `j` where a fence starts. */
  function FenceAt(s: string, j: nat): (r: Option<nat>)
    requires j <= |s|
    ensures r.Some? ==> j <= r.value && FenceStartsAt(s, r.value)
    ensures r.Some? ==> forall k :: j <= k < r.value ==> !FenceStartsAt(s, k)
    ensures r.None? ==> forall k :: j <= k ==> !FenceStartsAt(s, k)
    decreases |s| - j
  {
    if j + 3 > |s| then None
    else if s[j..j + 3] == Fence then Some(j)
    else FenceAt(s, j + 1)
  }

  /** `/```[\s\S]*?```/g` replaced by nothing: a fence opened at the scan
      position is removed up to and including the nearest closing fence; a
      fence that is never closed stays. Fewer than three backticks leave the
      text as it is. */
  function StripFences(s: string): (r: string)
    ensures multiset(r) <= multiset(s)
    ensures multiset(s)[Tick] <= 2 ==> r == s
    decreases |s|
  {
    if |s| < 3 then s
    else if s[..3] == Fence && FenceAt(s, 3).Some? then
      assert s == s[..3] + s[3..];
      var close := FenceAt(s, 3).value;
      assert s == s[..close + 3] + s[close + 3..];
      StripFences(s[close + 3..])
    else
      assert s == [s[0]] + s[1..];
      [s[0]] + StripFences(s[1..])
  }

  /** The first backtick at or after `j`. */
  function TickAt(s: string, j: nat): (r: Option<nat>)
    requires j <= |s|
    ensures r.Some? ==> j <= r.value < |s| && s[r.value] == Tick
    ensures r.Some? ==> forall k :: j <= k < r.value ==> s[k] != Tick
    ensures r.None? ==> forall k :: j <= k < |s| ==> s[k] != Tick
    decreases |s| - j
  {
    if j == |s| then None
    else if s[j] == Tick then Some(j)
    else TickAt(s, j + 1)
  }

  /** `/`[^`]*`/g` replaced by nothing: a backtick is removed with everything
      up to the next backtick. What remains holds at most one backtick (an
      unmatched last one), and text with at most one is left as it is. */
  function StripInline(s: string): (r: string)
    ensures multiset(r) <= multiset(s)
    ensures multiset(r)[Tick] <= 1
    ensures multiset(s)[Tick] <= 1 ==> r == s
    decreases |s|
  {
    if |s| == 0 then s
    else if s[0] == Tick then
      assert s == [s[0]] + s[1..];
      match TickAt(s, 1)
      case None =>
        assert Tick !in s[1..];
        s
      case Some(close) =>
        assert s == s[..close + 1] + s[close + 1..];
        assert s[..close + 1][0] == Tick && s[..close + 1][close] == Tick;
        StripInline(s[close + 1..])
    else
      assert s == [s[0]] + s[1..];
      [s[0]] + StripInline(s[1..])
  }

  /** Text without a backtick passes the inline-code scan unchanged. */
  lemma {:induction false} InlineKeepsPlain(a: string, c: string)
    requires Tick !in a
    ensures StripInline(a + c) == a + StripInline(c)
    decreases |a|
  {
    if |a| > 0 {
      var s, rest := a + c, a[1..] + c;
      assert StripInline(s) == [a[0]] + StripInline(rest) by {
        assert s[0] == a[0] && s[0] != Tick && s[1..] == rest;
      }
      assert StripInline(rest) == a[1..] + StripInline(c) by {
        assert Tick !in a[1..];
        InlineKeepsPlain(a[1..], c);
      }
      assert [a[0]] + (a[1..] + StripInline(c)) == a + StripInline(c) by {
        assert a == [a[0]] + a[1..];
      }
    } else {
      assert a + c == c;
    }
  }

  /** A closed inline span goes whole, backticks and code alike. */
  lemma InlineSpanRemoved(b: string, c: string)
    requires Tick !in b
    ensures StripInline([Tick] + b + [Tick] + c) == StripInline(c)
  {
    var s := [Tick] + b + [Tick] + c;
    var close := |b| + 1;
    assert s[close] == Tick;
    assert forall k :: 1 <= k < close ==> s[k] == b[k - 1];
    assert TickAt(s, 1) == Some(close);
    assert s[close + 1..] == c;
  }

  /** A first character that is not a backtick cannot open a fence. */
  lemma FencesSkipPlainHead(x: char, t: string)
    requires x != Tick
    ensures StripFences([x] + t) == [x] + StripFences(t)
  {
    var s := [x] + t;
    assert s[0] == x && s[1..] == t;
    if |s| >= 3 {
      assert s[..3][0] != Fence[0];
    }
  }

  /** Text without a backtick passes the fence scan unchanged. */
  lemma {:induction false} FencesKeepPlain(a: string, c: string)
    requires Tick !in a
    ensures StripFences(a + c) == a + StripFences(c)
    decreases |a|
  {
    if |a| > 0 {
      var x, rest := a[0], a[1..];
      assert a + c == [x] + (rest + c) by {
        assert a == [x] + rest;
      }
      FencesSkipPlainHead(x, rest + c);
      assert Tick !in rest;
      FencesKeepPlain(rest, c);
      assert [x] + (rest + StripFences(c)) == a + StripFences(c) by {
        assert a == [x] + rest;
      }
    } else {
      assert a + c == c;
    }
  }

  /** A closed fence goes whole, the fences and the code between them. */
  lemma FenceSpanRemoved(b: string, c: string)
    requires Tick !in b
    ensures StripFences(Fence + b + Fence + c) == StripFences(c)
  {
    var s := Fence + b + Fence + c;
    var close := |b| + 3;
    assert s[..3] == Fence;
    assert s[close..close + 3] == Fence;
    forall k | 3 <= k < close
      ensures !FenceStartsAt(s, k)
    {
      assert s[k] == b[k - 3];
    }
    assert FenceStartsAt(s, close);
    var r := FenceAt(s, 3);
    assert r.Some? && r.value == close;
    assert s[close + 3..] == c;
  }

  /** No white space but single plain spaces. */
  ghost predicate Collapsed(s: string) {
    && (forall i :: 0 <= i < |s| ==> JsIsSpace(s[i]) ==> s[i] == ' ')
    && (forall i :: 0 <= i < |s| - 1 ==> !(s[i] == ' ' && s[i + 1] == ' '))
  }

  function IsVisible(c: char): bool { !JsIsSpace(c) }

  /** Every character is white space. */
  predicate AllSpace(s: string) { forall k :: 0 <= k < |s| ==> JsIsSpace(s[k]) }

  /** `/\s+/g` replaced by one space: every run of white space becomes a
      single ' '. */
  function Collapse(s: string): (r: string)
    ensures |r| == 0 <==> |s| == 0
    ensures |r| > 0 ==> (r[0] == ' ' <==> JsIsSpace(s[0]))
    decreases |s|
  {
    if |s| == 0 then []
    else if JsIsSpace(s[0]) then [' '] + Collapse(s[LeadingSpaces(s, JsIsSpace)..])
    else [s[0]] + Collapse(s[1..])
  }

  /** The run of white space at the start of `s` is dropped whole. */
  lemma SpaceRun(s: string)
    requires |s| > 0 && JsIsSpace(s[0])
    ensures var n := LeadingSpaces(s, JsIsSpace);
      && 0 < n <= |s|
      && (forall k :: 0 <= k < n ==> JsIsSpace(s[k]))
      && (n < |s| ==> !JsIsSpace(s[n]))
  {
  }

  /** The result of Collapse has no white space but single plain spaces. */
  lemma {:induction false} CollapseIsCollapsed(s: string)
    ensures Collapsed(Collapse(s))
    decreases |s|
  {
    if |s| > 0 {
      var r := Collapse(s);
      if JsIsSpace(s[0]) {
        SpaceRun(s);
        var rest := s[LeadingSpaces(s, JsIsSpace)..];
        CollapseIsCollapsed(rest);
        assert r == [' '] + Collapse(rest);
      } else {
        CollapseIsCollapsed(s[1..]);
        assert r == [s[0]] + Collapse(s[1..]);
      }
    }
  }

  /** Collapse keeps the visible characters, in order. */
  lemma {:induction false} CollapseKeepsVisible(s: string)
    ensures Seqs.Filter(Collapse(s), IsVisible) == Seqs.Filter(s, IsVisible)
    decreases |s|
  {
    if |s| > 0 {
      var r := Collapse(s);
      if JsIsSpace(s[0]) {
        SpaceRun(s);
        var n := LeadingSpaces(s, JsIsSpace);
        CollapseKeepsVisible(s[n..]);
        assert r[1..] == Collapse(s[n..]);
        Seqs.FilterSkipsRejected(s, n, IsVisible);
      } else {
        CollapseKeepsVisible(s[1..]);
        assert r[1..] == Collapse(s[1..]);
      }
    }
  }

  /** A run of white space holds no backtick. */
  lemma NoTicksInSpaces(s: string)
    requires forall k :: 0 <= k < |s| ==> JsIsSpace(s[k])
    ensures multiset(s)[Tick] == 0
  {
  }

  /** Collapse neither adds nor removes backticks. */
  lemma {:induction false} CollapseKeepsTicks(s: string)
    ensures multiset(Collapse(s))[Tick] == multiset(s)[Tick]
    decreases |s|
  {
    if |s| > 0 {
      var r := Collapse(s);
      if JsIsSpace(s[0]) {
        SpaceRun(s);
        var n := LeadingSpaces(s, JsIsSpace);
        var rest := s[n..];
        CollapseKeepsTicks(rest);
        assert r == [' '] + Collapse(rest);
        NoTicksInSpaces(s[..n]);
        assert s == s[..n] + rest;
        assert multiset(s) == multiset(s[..n]) + multiset(rest);
      } else {
        var rest := s[1..];
        CollapseKeepsTicks(rest);
        assert r == [s[0]] + Collapse(rest);
        assert s == [s[0]] + rest;
      }
    }
  }

  /** Text already collapsed is left as it is. */
  lemma {:induction false} CollapseFixes(s: string)
    requires Collapsed(s)
    ensures Collapse(s) == s
    decreases |s|
  {
    if |s| > 0 {
      assert Collapsed(s[1..]) by {
        assert forall i :: 0 <= i < |s| - 1 ==> s[1..][i] == s[i + 1];
      }
      CollapseFixes(s[1..]);
      if JsIsSpace(s[0]) {
        assert |s| == 1 || !JsIsSpace(s[1]);
        assert SkipSpaces(s, JsIsSpace, 1) == 1;
      }
      assert s == [s[0]] + s[1..];
    }
  }

  /** A cleaned title text: at most one backtick, no white space but single
      spaces, and none at either end. */
  ghost predicate Clean(c: string) {
    && multiset(c)[Tick] <= 1
    && Collapsed(c)
    && (|c| > 0 ==> c[0] != ' ' && c[|c| - 1] != ' ')
  }

  /** A piece of a collapsed text is collapsed. */
  lemma SliceKeepsCollapsed(s: string, i: nat, j: nat)
    requires i <= j <= |s| && Collapsed(s)
    ensures Collapsed(s[i..j])
  {
    var r := s[i..j];
    assert forall k :: 0 <= k < |r| ==> r[k] == s[i + k];
  }

  /** Trimming a text that has no white space at either end changes
      nothing. */
  lemma TrimFixes(s: string)
    requires |s| > 0 ==> !JsIsSpace(s[0]) && !JsIsSpace(s[|s| - 1])
    ensures JsTrim(s) == s
  {
  }

  /** The cleaning pipeline of the title derivation. */
  function CleanText(text: string): (c: string)
    ensures Clean(c)
  {
    var code := StripInline(StripFences(text));
    CollapseIsCollapsed(code);
    CollapseKeepsTicks(code);
    TrimKeepsClean(Collapse(code));
    JsTrim(Collapse(code))
  }

  /** Trimming a collapsed text with at most one backtick cleans it. */
  lemma TrimKeepsClean(collapsed: string)
    requires Collapsed(collapsed) && multiset(collapsed)[Tick] <= 1
    ensures Clean(JsTrim(collapsed))
  {
    var c := JsTrim(collapsed);
    var i := LeadingSpaces(collapsed, JsIsSpace);
    assert c == collapsed[i..i + |c|];
    assert Collapsed(c) by {
      SliceKeepsCollapsed(collapsed, i, i + |c|);
    }
    assert multiset(c)[Tick] <= 1 by {
      Seqs.SliceIsSubMultiset(collapsed, i, i + |c|);
    }
    assert JsIsSpace(' ');
  }

  /** The cleaned text is empty exactly when nothing but white space is
      left once the code is removed. */
  lemma CleanTextEmpty(text: string)
    ensures CleanText(text) == [] <==> AllSpace(StripInline(StripFences(text)))
  {
    var code := StripInline(StripFences(text));
    var collapsed := Collapse(code);
    assert CleanText(text) == [] <==> AllSpace(collapsed) by {
      assert CleanText(text) == JsTrim(collapsed);
    }
    assert AllSpace(collapsed) <==> Seqs.Filter(collapsed, IsVisible) == [] by {
      AllSpaceIffNoVisible(collapsed);
    }
    assert Seqs.Filter(collapsed, IsVisible) == Seqs.Filter(code, IsVisible) by {
      CollapseKeepsVisible(code);
    }
    AllSpaceIffNoVisible(code);
  }

  /** Cleaning keeps every visible character of the text left once the code
      is removed, in order, and adds none. */
  lemma CleanTextKeepsVisible(text: string)
    ensures Seqs.Filter(CleanText(text), IsVisible) == Seqs.Filter(StripInline(StripFences(text)), IsVisible)
  {
    var code := StripInline(StripFences(text));
    var collapsed := Collapse(code);
    CollapseKeepsVisible(code);
    TrimKeepsVisible(collapsed);
  }

  /** Trimming drops white space only. */
  lemma TrimKeepsVisible(s: string)
    ensures Seqs.Filter(JsTrim(s), IsVisible) == Seqs.Filter(s, IsVisible)
  {
    var c := JsTrim(s);
    var i := LeadingSpaces(s, JsIsSpace);
    var j := i + |c|;
    assert TrimmedAt(c, s, i, JsIsSpace);
    assert c == s[i..j];
    forall k | 0 <= k < i
      ensures !IsVisible(s[k])
    {
      assert JsIsSpace(s[k]);
    }
    forall k | j <= k < |s|
      ensures !IsVisible(s[k])
    {
      assert JsIsSpace(s[k]);
    }
    Seqs.FilterOfMiddle(s, i, j, IsVisible);
  }

  /** A text is all white space exactly when it has no visible character. */
  lemma {:induction false} AllSpaceIffNoVisible(s: string)
    ensures AllSpace(s) <==> Seqs.Filter(s, IsVisible) == []
    decreases |s|
  {
    if |s| > 0 {
      AllSpaceIffNoVisible(s[1..]);
      assert forall k :: 1 <= k < |s| ==> s[k] == s[1..][k - 1];
    }
  }

  /** Cleaning a cleaned text changes nothing. */
  lemma {:induction false} CleanTextIdempotent(text: string)
    ensures CleanText(CleanText(text)) == CleanText(text)
  {
    var c := CleanText(text);
    assert StripFences(c) == c;
    assert StripInline(c) == c;
    CollapseFixes(c);
    TrimFixes(c);
  }

  /** The title: the first 40 characters of the cleaned text, with an
      ellipsis when anything was cut. */
  function Shorten(clean: string): (t: string)
    ensures |clean| <= TitleLength ==> t == clean
    ensures |clean| > TitleLength ==> |t| == TitleLength + 1 && t[..TitleLength] == clean[..TitleLength] && t[TitleLength..] == Ellipsis
    ensures |t| <= TitleLength + 1
  {
    var head := Seqs.Prefix(clean, TitleLength);
    if |clean| > TitleLength then head + Ellipsis else head
  }

  /** A rename the browser sends to the server: the session and the name. */
  datatype RenameCall = RenameCall(sessionId: nat, name: string)

  /** Whether and how the browser renames the current session after the
      first message. No request when there is no current session (the id 0
      is falsy too), the text is empty or nothing is left after cleaning. */
  function AutoRename(currentSessionId: Option<nat>, text: string): (r: Option<RenameCall>)
    ensures r.Some? <==> currentSessionId.Some? && currentSessionId.value != 0 && CleanText(text) != []
    ensures r.Some? ==> r.value.sessionId == currentSessionId.value && r.value.name == Shorten(CleanText(text))
    ensures r.Some? ==> 0 < |r.value.name| <= TitleLength + 1
  {
    if currentSessionId.None? || currentSessionId.value == 0 || text == [] then None
    else
      var c := CleanText(text);
      if c == [] then None else Some(RenameCall(currentSessionId.value, Shorten(c)))
  }

  /** Text with neither white space nor backticks is its own cleaned
      text. */
  lemma PlainTextIsClean(text: string)
    requires forall k :: 0 <= k < |text| ==> !JsIsSpace(text[k]) && text[k] != Tick
    ensures CleanText(text) == text
  {
    assert Tick !in text;
    assert multiset(text)[Tick] == 0;
    assert StripFences(text) == text;
    assert StripInline(text) == text;
    CollapseFixes(text);
    TrimFixes(text);
  }

  /** A long first message is cut to forty characters and an ellipsis. */
  lemma LongTextIsCut()
    ensures AutoRename(Some(7), seq(41, _ => 'a')) == Some(RenameCall(7, seq(40, _ => 'a') + Ellipsis))
  {
    var text := seq(41, _ => 'a');
    PlainTextIsClean(text);
    assert Seqs.Prefix(text, TitleLength) == seq(40, _ => 'a');
  }

  /** A message of code only yields no title. */
  lemma CodeOnlyGivesNoTitle()
    ensures AutoRename(Some(7), "`x`") == None
  {
    assert StripFences("`x`") == "`x`";
    assert TickAt("`x`", 1) == Some(2);
    assert StripInline("`x`") == [];
  }
}
