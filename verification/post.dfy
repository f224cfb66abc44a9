/**
 The reply `create_post` composes for a new post: a fixed template naming the
 target account and the watched account, the post's text and its permalink.
 The id is rendered as Python's `str` renders an integer.
 */
module Post {
  import opened Items

  const TargetHandle: string := "elonmusk"
  const Rocket: string := "\U{1F680}"

  /** The fixed pieces of the reply template, in order. */
  const Opening: string := Rocket + " Attention "
  const Mention: string := "@" + TargetHandle
  const Sharing: string := " " + Rocket + "\n\nSnafu ("
  const Updates: string := ") is actively sharing updates:\n\n"
  const Closing: string := "\n\nCheck it out here: "

  predicate IsDigit(c: char) { '0' as int <= c as int <= '9' as int }

  /** Decimal digits of a natural number, most significant first, no leading zero. */
  function NatToString(n: nat): (s: string)
    ensures |s| >= 1
    ensures forall i :: 0 <= i < |s| ==> IsDigit(s[i])
    ensures |s| > 1 ==> s[0] != '0'
    decreases n
  {
    var d := [('0' as int + n % 10) as char];
    if n < 10 then d else NatToString(n / 10) + d
  }

  /** The value of a string of decimal digits. */
  function DigitsValue(s: string): nat
    requires forall i :: 0 <= i < |s| ==> IsDigit(s[i])
    decreases |s|
  {
    if |s| == 0 then 0
    else
      assert IsDigit(s[|s| - 1]);
      DigitsValue(s[..|s| - 1]) * 10 + (s[|s| - 1] as int - '0' as int)
  }

  /** `str(n)`: a minus sign before the magnitude's digits when `n` is negative. */
  function IdToString(n: int): (s: string)
    ensures |s| >= 1
    ensures n >= 0 <==> IsDigit(s[0])
  {
    if n < 0 then "-" + NatToString(-n) else NatToString(n)
  }

  /** Reads back what IdToString writes; `None` for anything else. */
  function ParseId(s: string): (r: Option<int>)
    ensures r.Some? && r.value < 0 ==> |s| > 1 && s[0] == '-'
  {
    if |s| == 0 then None
    else if s[0] == '-' then
      if |s| > 1 && forall i :: 1 <= i < |s| ==> IsDigit(s[i]) then
        var v := DigitsValue(s[1..]);
        if v == 0 then None else Some(0 - v)
      else None
    else if forall i :: 0 <= i < |s| ==> IsDigit(s[i]) then Some(DigitsValue(s))
    else None
  }

  lemma {:induction false} NatToStringRoundTrip(n: nat)
    ensures DigitsValue(NatToString(n)) == n
    decreases n
  {
    var s := NatToString(n);
    if n >= 10 {
      NatToStringRoundTrip(n / 10);
      assert s[..|s| - 1] == NatToString(n / 10);
    }
  }

  /** The id in a permalink can be read back exactly. */
  lemma IdToStringRoundTrip(n: int)
    ensures ParseId(IdToString(n)) == Some(n)
  {
    if n < 0 {
      NatToStringRoundTrip(-n);
      assert IdToString(n)[1..] == NatToString(-n);
    } else {
      NatToStringRoundTrip(n);
    }
  }

  /** `https://x.com/{handle}/status/{id}`. */
  function Permalink(handle: string, id: int): (link: string)
    ensures |link| > |"https://x.com/" + handle + "/status/"|
    ensures link[..|"https://x.com/" + handle + "/status/"|] == "https://x.com/" + handle + "/status/"
  {
    "https://x.com/" + handle + "/status/" + IdToString(id)
  }

  /** After the fixed prefix, the permalink reads back as the post's id. */
  lemma PermalinkReadsBack(handle: string, id: int)
    ensures ParseId(Permalink(handle, id)[|"https://x.com/" + handle + "/status/"|..]) == Some(id)
  {
    var prefix := "https://x.com/" + handle + "/status/";
    assert Permalink(handle, id)[|prefix|..] == IdToString(id);
    IdToStringRoundTrip(id);
  }

  /** Distinct posts of one account have distinct permalinks. */
  lemma PermalinkInjective(handle: string, a: int, b: int)
    requires Permalink(handle, a) == Permalink(handle, b)
    ensures a == b
  {
    var p := "https://x.com/" + handle + "/status/";
    assert Permalink(handle, a)[|p|..] == IdToString(a);
    assert Permalink(handle, b)[|p|..] == IdToString(b);
    IdToStringRoundTrip(a);
    IdToStringRoundTrip(b);
  }

  /** `t` occurs in `s` starting at position `i`. */
  predicate OccursAt(s: string, t: string, i: nat)
  {
    i + |t| <= |s| && s[i..i + |t|] == t
  }

  predicate Contains(s: string, t: string)
  {
    exists i: nat | i <= |s| :: OccursAt(s, t, i)
  }

  predicate EndsWith(s: string, t: string)
  {
    |t| <= |s| && s[|s| - |t|..] == t
  }

  /** A string occurs at the end of any string it is appended to. */
  lemma OccursAtEnd(a: string, t: string)
    ensures OccursAt(a + t, t, |a|)
  {
    assert (a + t)[|a|..|a| + |t|] == t;
  }

  /** Appending keeps every occurrence where it was. */
  lemma OccursExtend(s: string, b: string, t: string, i: nat)
    requires OccursAt(s, t, i)
    ensures OccursAt(s + b, t, i)
  {
    assert (s + b)[i..i + |t|] == s[i..i + |t|];
  }

  /** The template of lines 114-119, for the watched account `handle`. */
  function ComposePost(handle: string, item: Item): (post: string)
    ensures EndsWith(post, Permalink(handle, item.id))
  {
    Opening + Mention + Sharing + ("@" + handle) + Updates + item.text + Closing
    + Permalink(handle, item.id)
  }

  /**
   The reply mentions the fixed target and the watched account, quotes the
   post's text, and ends with the post's permalink.
   */
  lemma ComposePostMentions(handle: string, item: Item)
    ensures var post := ComposePost(handle, item);
            && Contains(post, "@" + TargetHandle)
            && Contains(post, "@" + handle)
            && Contains(post, item.text)
  {
    var own := "@" + handle;
    var link := Permalink(handle, item.id);
    var p1 := Opening + Mention;
    var p2 := p1 + Sharing;
    var p3 := p2 + own;
    var p4 := p3 + Updates;
    var p5 := p4 + item.text;
    var p6 := p5 + Closing;
    OccursAtEnd(Opening, Mention);
    OccursExtend(p1, Sharing, Mention, |Opening|);
    OccursExtend(p2, own, Mention, |Opening|);
    OccursAtEnd(p2, own);
    OccursExtend(p3, Updates, Mention, |Opening|);
    OccursExtend(p3, Updates, own, |p2|);
    OccursExtend(p4, item.text, Mention, |Opening|);
    OccursExtend(p4, item.text, own, |p2|);
    OccursAtEnd(p4, item.text);
    OccursExtend(p5, Closing, Mention, |Opening|);
    OccursExtend(p5, Closing, own, |p2|);
    OccursExtend(p5, Closing, item.text, |p4|);
    OccursExtend(p6, link, Mention, |Opening|);
    OccursExtend(p6, link, own, |p2|);
    OccursExtend(p6, link, item.text, |p4|);
  }
}
