/**
  Backslash-escaping for Telegram's MarkdownV2 parse mode: the eighteen characters the
  Bot API lists under "MarkdownV2 style" as needing a preceding backslash.
*/
module Markdown {

  /** The MarkdownV2 special characters. The backslash itself is not among them. */
  const Specials: string := "_*[]()~`>#+-=|{}.!"

  predicate IsSpecial(c: char) {
    c in Specials
  }

  function CountSpecials(s: string): (n: nat)
    ensures n <= |s|
  {
    if s == [] then 0 else (if IsSpecial(s[0]) then 1 else 0) + CountSpecials(s[1..])
  }

  /** Every special character of `t` has a backslash right before it. */
  predicate SpecialsEscaped(t: string) {
    forall i :: 0 <= i < |t| && IsSpecial(t[i]) ==> i > 0 && t[i - 1] == '\\'
  }

  /**
    `escape_username_md2`: each special character gets one backslash in front of it,
    every other character is copied unchanged and in order.
  */
  function EscapeMd2(s: string): (r: string)
    ensures |r| == |s| + CountSpecials(s)
    ensures SpecialsEscaped(r)
    ensures |s| > 0 ==> r[0] == (if IsSpecial(s[0]) then '\\' else s[0])
  {
    if s == [] then []
    else
      var head := if IsSpecial(s[0]) then ['\\', s[0]] else [s[0]];
      var tail := EscapeMd2(s[1..]);
      EscapedConcat(head, tail);
      head + tail
  }

  lemma BackslashNotSpecial()
    ensures !IsSpecial('\\')
  {
  }

  /** An escaped head followed by an escaped tail that does not open on a special character. */
  lemma EscapedConcat(head: string, tail: string)
    requires (|head| == 2 && head[0] == '\\') || (|head| == 1 && !IsSpecial(head[0]))
    requires SpecialsEscaped(tail) && (tail == [] || !IsSpecial(tail[0]))
    ensures SpecialsEscaped(head + tail)
  {
    BackslashNotSpecial();
    var t := head + tail;
    forall i | 0 <= i < |t| && IsSpecial(t[i])
      ensures i > 0 && t[i - 1] == '\\'
    {
      if i >= |head| + 1 {
        assert t[i] == tail[i - |head|] && t[i - 1] == tail[i - 1 - |head|];
      }
    }
  }

  /** Drops the backslash in front of each special character. */
  function Unescape(t: string): string {
    if t == [] then []
    else if |t| >= 2 && t[0] == '\\' && IsSpecial(t[1]) then [t[1]] + Unescape(t[2..])
    else [t[0]] + Unescape(t[1..])
  }

  /** Escaping loses nothing: removing the added backslashes gives back the input. */
  lemma {:induction false} UnescapeEscape(s: string)
    ensures Unescape(EscapeMd2(s)) == s
  {
    if s != [] {
      var r := EscapeMd2(s);
      var tail := EscapeMd2(s[1..]);
      UnescapeEscape(s[1..]);
      if IsSpecial(s[0]) {
        assert r == ['\\', s[0]] + tail;
        assert r[2..] == tail;
      } else {
        assert r == [s[0]] + tail;
        assert r[1..] == tail;
        assert s == [s[0]] + s[1..];
      }
    }
  }

  /**
    The `(?m)^-` substitution of utils/text_utils.py: a backslash before each hyphen that
    begins a line. `atLineStart` says whether `t` begins at the start of a line.
  */
  function EscapeLineStartHyphens(t: string, atLineStart: bool): string {
    if t == [] then []
    else (if atLineStart && t[0] == '-' then "\\-" else [t[0]]) + EscapeLineStartHyphens(t[1..], t[0] == '\n')
  }

  /** When every hyphen already has a backslash before it, no hyphen begins a line, and the substitution changes nothing. */
  lemma {:induction false} EscapedHyphensUntouched(t: string, atLineStart: bool)
    requires forall i :: 0 < i < |t| && t[i] == '-' ==> t[i - 1] == '\\'
    requires atLineStart && |t| > 0 ==> t[0] != '-'
    ensures EscapeLineStartHyphens(t, atLineStart) == t
  {
    if t != [] {
      var rest := t[1..];
      assert forall i :: 0 < i < |rest| && rest[i] == '-' ==> t[i + 1] == '-';
      if |rest| > 0 && rest[0] == '-' {
        assert t[1] == '-';
      }
      EscapedHyphensUntouched(rest, t[0] == '\n');
      assert t == [t[0]] + rest;
    }
  }

  /**
    `escape_markdown`: empty input gives the empty string; otherwise the result is exactly
    the MarkdownV2 escaping, because the later line-start hyphen substitution never applies.
  */
  function EscapeMarkdown(text: string): (r: string)
    ensures r == EscapeMd2(text)
    ensures |r| == |text| + CountSpecials(text)
  {
    if text == [] then []
    else
      var escaped := EscapeMd2(text);
      assert IsSpecial('-');
      EscapedHyphensUntouched(escaped, true);
      EscapeLineStartHyphens(escaped, true)
  }
}
