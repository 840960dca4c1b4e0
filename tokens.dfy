/**
  Callback tokens of the inline keyboards: a tag and a value joined by one `|`, read back
  with `tag, value = data.split("|")`, which raises `ValueError` unless the data holds
  exactly one `|`.
*/
module Tokens {
  import opened Wrappers
  import opened Calendar
  import opened Numerals
  import IsoDate

  const Bar: char := '|'

  function MakeToken(tag: string, value: string): (t: string)
    ensures |t| == |tag| + 1 + |value| && t[|tag|] == Bar
  {
    tag + [Bar] + value
  }

  /**
    `data.split("|")` unpacked into two names: the parts before and after the only bar,
    or `None` for the `ValueError` raised when there are zero or several bars.
  */
  function SplitToken(data: string): (r: Option<(string, string)>)
    ensures r.Some? ==> Bar !in r.value.0 && Bar !in r.value.1 && data == MakeToken(r.value.0, r.value.1)
    ensures r.None? ==> forall i :: 0 <= i < |data| && data[i] == Bar ==> Bar in data[..i] || Bar in data[i + 1..]
  {
    if Bar !in data then None
    else
      var i := FirstIndex(data, Bar);
      if Bar in data[i + 1..] then None
      else
        assert data == data[..i] + [Bar] + data[i + 1..];
        Some((data[..i], data[i + 1..]))
  }

  function FirstIndex(s: string, c: char): (i: nat)
    requires c in s
    ensures i < |s| && s[i] == c && c !in s[..i]
  {
    if s[0] == c then 0
    else
      var j := FirstIndex(s[1..], c);
      assert s[..j + 1] == [s[0]] + s[1..][..j];
      j + 1
  }

  /** A token whose tag and value hold no bar splits back into that tag and value. */
  lemma SplitMakeToken(tag: string, value: string)
    requires Bar !in tag && Bar !in value
    ensures SplitToken(MakeToken(tag, value)) == Some((tag, value))
  {
    var t := MakeToken(tag, value);
    assert t[..|tag|] == tag && t[|tag| + 1..] == value;
    var r := SplitToken(t);
    assert Bar in t[..|tag| + 1];
    if r.Some? {
      var (a, b) := r.value;
      assert t == a + [Bar] + b;
      assert |a| == |tag|;
    }
  }

  /** An integer written by Python's `str` never contains a bar. */
  lemma NoBarInDecimal(n: int)
    ensures Bar !in DecimalString(n)
  {
    var s := DecimalString(n);
    if n < 0 {
      assert AllDigits(s[1..]);
      assert forall i :: 1 <= i < |s| ==> s[i] == s[1..][i - 1];
    }
  }

  /** An ISO date string never contains a bar. */
  lemma NoBarInIso(d: Date)
    ensures Bar !in IsoDate.FormatIso(d)
  {
    var s := IsoDate.FormatIso(d);
    assert forall i :: 0 <= i < 4 ==> s[i] == s[..4][i];
    assert forall i :: 5 <= i < 7 ==> s[i] == s[5..7][i - 5];
    assert forall i :: 8 <= i < 10 ==> s[i] == s[8..][i - 8];
  }

  /** The tags of the bot's callback tokens hold no bar. */
  lemma TagsHaveNoBar()
    ensures Bar !in "chooseday" && Bar !in "chooseevent" && Bar !in "chooserole"
    ensures Bar !in "cancelpart" && Bar !in "manageevent"
  {
  }

  /** `f"{tag}|{id}"` splits back to the tag and, through `int`, to the same id. */
  lemma IdTokenRoundTrip(tag: string, id: int)
    requires Bar !in tag
    ensures SplitToken(MakeToken(tag, DecimalString(id))) == Some((tag, DecimalString(id)))
    ensures ParseInt(DecimalString(id)) == Some(id)
  {
    NoBarInDecimal(id);
    SplitMakeToken(tag, DecimalString(id));
    ParseDecimal(id);
  }

  /** `f"chooseday|{d.isoformat()}"` splits back to the tag and the same ISO string, which parses to `d`. */
  lemma DateTokenRoundTrip(tag: string, d: Date)
    requires Bar !in tag
    ensures SplitToken(MakeToken(tag, IsoDate.FormatIso(d))) == Some((tag, IsoDate.FormatIso(d)))
    ensures IsoDate.ParseIso(IsoDate.FormatIso(d)) == Some(d)
  {
    NoBarInIso(d);
    SplitMakeToken(tag, IsoDate.FormatIso(d));
    IsoDate.ParseFormat(d);
  }

  /** Two date tokens with the same tag are equal only for the same date. */
  lemma DateTokenInjective(tag: string, a: Date, b: Date)
    requires Bar !in tag
    requires MakeToken(tag, IsoDate.FormatIso(a)) == MakeToken(tag, IsoDate.FormatIso(b))
    ensures a == b
  {
    DateTokenRoundTrip(tag, a);
    DateTokenRoundTrip(tag, b);
  }
}
