/**
  Util.URLSafeBase64: standard Base64 (RFC 4648, section 4) turned into the URL- and
  filename-safe alphabet of RFC 4648 section 5 by replacing '+' with '-' and '/' with
  '_', with the '=' padding dropped as section 3.2 of RFC 4648 permits.
*/
module Util {
  import opened Common

  /** System.Byte */
  type byte = x: int | 0 <= x < 256

  /** The alphabet of RFC 4648 section 4 (Table 1). */
  function StdChar(i: nat): (c: char)
    requires i < 64
  {
    if i < 26 then ('A' as int + i) as char
    else if i < 52 then ('a' as int + i - 26) as char
    else if i < 62 then ('0' as int + i - 52) as char
    else if i == 62 then '+'
    else '/'
  }

  /** The alphabet of RFC 4648 section 5 (Table 2). */
  function UrlChar(i: nat): (c: char)
    requires i < 64
    ensures IsUrlAlphabet(c)
  {
    if i < 62 then StdChar(i) else if i == 62 then '-' else '_'
  }

  predicate IsUrlAlphabet(c: char) {
    'A' <= c <= 'Z' || 'a' <= c <= 'z' || '0' <= c <= '9' || c == '-' || c == '_'
  }

  /** The 6-bit value a character of the URL-safe alphabet stands for (0 for any other character). */
  function UrlIndex(c: char): (i: nat)
    ensures i < 64
  {
    if 'A' <= c <= 'Z' then c as int - 'A' as int
    else if 'a' <= c <= 'z' then c as int - 'a' as int + 26
    else if '0' <= c <= '9' then c as int - '0' as int + 52
    else if c == '-' then 62
    else if c == '_' then 63
    else 0
  }

  /** Every character of the URL-safe alphabet stands for one sextet. */
  lemma UrlIndexOfChar(i: nat)
    requires i < 64
    ensures UrlIndex(UrlChar(i)) == i
  {
  }

  /** The four sextets of a 24-bit group of three bytes, most significant first. */
  function Sextets(b0: byte, b1: byte, b2: byte): (s: seq<nat>)
    ensures |s| == 4 && s[0] < 64 && s[1] < 64 && s[2] < 64 && s[3] < 64
  {
    [b0 / 4, (b0 % 4) * 16 + b1 / 16, (b1 % 16) * 4 + b2 / 64, b2 % 64]
  }

  /**
    Convert.ToBase64String: every group of three bytes becomes four characters; a final
    group of one or two bytes is zero-filled and padded with "==" or "=".
  */
  function Base64(d: seq<byte>): string
    decreases |d|
  {
    if |d| == 0 then ""
    else if |d| == 1 then
      var s := Sextets(d[0], 0, 0);
      [StdChar(s[0]), StdChar(s[1]), '=', '=']
    else if |d| == 2 then
      var s := Sextets(d[0], d[1], 0);
      [StdChar(s[0]), StdChar(s[1]), StdChar(s[2]), '=']
    else
      var s := Sextets(d[0], d[1], d[2]);
      [StdChar(s[0]), StdChar(s[1]), StdChar(s[2]), StdChar(s[3])] + Base64(d[3..])
  }

  /**
    The base64url encoding of RFC 4648 section 5 without padding, written directly: the
    reference the replace chain of URLSafeBase64 is proved to meet.
  */
  function UnpaddedUrl(d: seq<byte>): string
    decreases |d|
  {
    if |d| == 0 then ""
    else if |d| == 1 then
      var s := Sextets(d[0], 0, 0);
      [UrlChar(s[0]), UrlChar(s[1])]
    else if |d| == 2 then
      var s := Sextets(d[0], d[1], 0);
      [UrlChar(s[0]), UrlChar(s[1]), UrlChar(s[2])]
    else
      var s := Sextets(d[0], d[1], d[2]);
      [UrlChar(s[0]), UrlChar(s[1]), UrlChar(s[2]), UrlChar(s[3])] + UnpaddedUrl(d[3..])
  }

  /** The replace chain applied to the standard encoding. */
  function ToUrlSafe(s: string): string {
    RemoveChar(ReplaceChar(ReplaceChar(s, '+', '-'), '/', '_'), '=')
  }

  /**
    URLSafeBase64. A null array makes Convert.ToBase64String raise for "inArray";
    otherwise the result is the unpadded base64url encoding of the data.
  */
  function URLSafeBase64(data: Option<seq<byte>>): (r: Outcome<string>)
    ensures data.None? <==> r.Throw?
    ensures r.Throw? ==> r.error == ArgumentNull("inArray", NULL_MESSAGE)
    ensures r.Ok? ==> r.value == UnpaddedUrl(data.value)
  {
    if data.None? then Throw(ArgumentNull("inArray", NULL_MESSAGE))
    else
      UrlSafeOfBase64(data.value);
      Ok(ToUrlSafe(Base64(data.value)))
  }

  lemma {:induction false} ReplaceConcat(a: string, b: string, from: char, to: char)
    ensures ReplaceChar(a + b, from, to) == ReplaceChar(a, from, to) + ReplaceChar(b, from, to)
  {
    var l, r := ReplaceChar(a + b, from, to), ReplaceChar(a, from, to) + ReplaceChar(b, from, to);
    ReplaceCharSpec(a + b, from, to);
    ReplaceCharSpec(a, from, to);
    ReplaceCharSpec(b, from, to);
    assert |l| == |r|;
    forall i | 0 <= i < |l| ensures l[i] == r[i] {
      if i < |a| {
        assert (a + b)[i] == a[i];
      } else {
        assert (a + b)[i] == b[i - |a|];
      }
    }
  }

  lemma {:induction false} RemoveConcat(a: string, b: string, c: char)
    ensures RemoveChar(a + b, c) == RemoveChar(a, c) + RemoveChar(b, c)
    decreases |b|
  {
    if b == [] {
      assert a + b == a;
    } else {
      var b' := b[..|b| - 1];
      assert (a + b)[..|a + b| - 1] == a + b';
      RemoveConcat(a, b', c);
    }
  }

  /** The replace chain maps the characters of a group one by one. */
  lemma ToUrlSafeConcat(a: string, b: string)
    ensures ToUrlSafe(a + b) == ToUrlSafe(a) + ToUrlSafe(b)
  {
    ReplaceConcat(a, b, '+', '-');
    ReplaceConcat(ReplaceChar(a, '+', '-'), ReplaceChar(b, '+', '-'), '/', '_');
    RemoveConcat(ReplaceChar(ReplaceChar(a, '+', '-'), '/', '_'), ReplaceChar(ReplaceChar(b, '+', '-'), '/', '_'), '=');
  }

  lemma ToUrlSafeChar(i: nat)
    requires i < 64
    ensures ToUrlSafe([StdChar(i)]) == [UrlChar(i)]
  {
    var c := StdChar(i);
    assert ReplaceChar([c], '+', '-') == [if c == '+' then '-' else c];
    var c1 := if c == '+' then '-' else c;
    assert ReplaceChar([c1], '/', '_') == [if c1 == '/' then '_' else c1];
    var c2 := if c1 == '/' then '_' else c1;
    assert RemoveChar([c2], '=') == RemoveChar([], '=') + [c2];
  }

  lemma ToUrlSafePad()
    ensures ToUrlSafe("=") == ""
  {
    assert ReplaceChar("=", '+', '-') == "=";
    assert ReplaceChar("=", '/', '_') == "=";
  }

  lemma ToUrlSafe2(a: nat, b: nat)
    requires a < 64 && b < 64
    ensures ToUrlSafe([StdChar(a), StdChar(b)]) == [UrlChar(a), UrlChar(b)]
  {
    assert [StdChar(a), StdChar(b)] == [StdChar(a)] + [StdChar(b)];
    ToUrlSafeConcat([StdChar(a)], [StdChar(b)]);
    ToUrlSafeChar(a);
    ToUrlSafeChar(b);
  }

  lemma ToUrlSafe3(a: nat, b: nat, c: nat)
    requires a < 64 && b < 64 && c < 64
    ensures ToUrlSafe([StdChar(a), StdChar(b), StdChar(c)]) == [UrlChar(a), UrlChar(b), UrlChar(c)]
  {
    assert [StdChar(a), StdChar(b), StdChar(c)] == [StdChar(a), StdChar(b)] + [StdChar(c)];
    ToUrlSafeConcat([StdChar(a), StdChar(b)], [StdChar(c)]);
    ToUrlSafe2(a, b);
    ToUrlSafeChar(c);
  }

  lemma ToUrlSafe4(a: nat, b: nat, c: nat, e: nat)
    requires a < 64 && b < 64 && c < 64 && e < 64
    ensures ToUrlSafe([StdChar(a), StdChar(b), StdChar(c), StdChar(e)]) == [UrlChar(a), UrlChar(b), UrlChar(c), UrlChar(e)]
  {
    assert [StdChar(a), StdChar(b), StdChar(c), StdChar(e)] == [StdChar(a), StdChar(b)] + [StdChar(c), StdChar(e)];
    ToUrlSafeConcat([StdChar(a), StdChar(b)], [StdChar(c), StdChar(e)]);
    ToUrlSafe2(a, b);
    ToUrlSafe2(c, e);
  }

  /** Padding characters vanish under the replace chain. */
  lemma ToUrlSafeDropsPad(t: string)
    ensures ToUrlSafe(t + "=") == ToUrlSafe(t)
  {
    ToUrlSafeConcat(t, "=");
    ToUrlSafePad();
    assert ToUrlSafe(t) + "" == ToUrlSafe(t);
  }

  lemma Base64OfOne(d: seq<byte>)
    requires |d| == 1
    ensures var s := Sextets(d[0], 0, 0); Base64(d) == [StdChar(s[0]), StdChar(s[1])] + "=" + "="
  {
  }

  /** A final single byte: two characters, and the "==" padding disappears. */
  lemma UrlSafeOfOneByte(d: seq<byte>)
    requires |d| == 1
    ensures ToUrlSafe(Base64(d)) == UnpaddedUrl(d)
  {
    var s := Sextets(d[0], 0, 0);
    var two := [StdChar(s[0]), StdChar(s[1])];
    Base64OfOne(d);
    ToUrlSafeDropsPad(two + "=");
    ToUrlSafeDropsPad(two);
    ToUrlSafe2(s[0], s[1]);
    UnpaddedOfOne(d);
  }

  /** A final pair of bytes: three characters, and the "=" padding disappears. */
  lemma UrlSafeOfTwoBytes(d: seq<byte>)
    requires |d| == 2
    ensures ToUrlSafe(Base64(d)) == UnpaddedUrl(d)
  {
    var s := Sextets(d[0], d[1], 0);
    var three := [StdChar(s[0]), StdChar(s[1]), StdChar(s[2])];
    calc {
      ToUrlSafe(Base64(d));
    == { assert Base64(d) == three + "="; }
      ToUrlSafe(three + "=");
    == { ToUrlSafeConcat(three, "="); ToUrlSafePad(); }
      ToUrlSafe(three);
    == { ToUrlSafe3(s[0], s[1], s[2]); UnpaddedOfTwo(d); }
      UnpaddedUrl(d);
    }
  }

  /** The replace chain of URLSafeBase64 turns the standard encoding into UnpaddedUrl. */
  lemma {:induction false} UrlSafeOfBase64(d: seq<byte>)
    ensures ToUrlSafe(Base64(d)) == UnpaddedUrl(d)
    decreases |d|
  {
    if |d| == 0 {
      assert ToUrlSafe("") == "";
    } else if |d| == 1 {
      UrlSafeOfOneByte(d);
    } else if |d| == 2 {
      UrlSafeOfTwoBytes(d);
    } else {
      var s := Sextets(d[0], d[1], d[2]);
      var head := [StdChar(s[0]), StdChar(s[1]), StdChar(s[2]), StdChar(s[3])];
      assert Base64(d) == head + Base64(d[3..]);
      ToUrlSafeConcat(head, Base64(d[3..]));
      ToUrlSafe4(s[0], s[1], s[2], s[3]);
      UrlSafeOfBase64(d[3..]);
    }
  }

  /** The encoded length: four characters per whole group, then 0, 2 or 3 for a remainder of 0, 1 or 2 bytes. */
  lemma {:induction false} UnpaddedUrlLength(d: seq<byte>)
    ensures |UnpaddedUrl(d)| == 4 * (|d| / 3) + [0, 2, 3][|d| % 3]
    decreases |d|
  {
    if |d| >= 3 {
      UnpaddedUrlLength(d[3..]);
    }
  }

  predicate AllUrlAlphabet(s: string) {
    forall k :: 0 <= k < |s| ==> IsUrlAlphabet(s[k])
  }

  lemma AlphabetConcat(a: string, b: string)
    requires AllUrlAlphabet(a) && AllUrlAlphabet(b)
    ensures AllUrlAlphabet(a + b)
  {
    forall k | 0 <= k < |a + b| ensures IsUrlAlphabet((a + b)[k]) {
      if k < |a| {
        assert (a + b)[k] == a[k];
      } else {
        assert (a + b)[k] == b[k - |a|];
      }
    }
  }

  lemma UrlCharsAlphabet(s: seq<nat>)
    requires forall k :: 0 <= k < |s| ==> s[k] < 64
    ensures AllUrlAlphabet(seq(|s|, k requires 0 <= k < |s| => UrlChar(s[k])))
  {
  }

  /** Every character of UnpaddedUrl(d) is drawn from the base64url alphabet. */
  lemma {:induction false} UnpaddedUrlAlphabet(d: seq<byte>)
    ensures AllUrlAlphabet(UnpaddedUrl(d))
    decreases |d|
  {
    if |d| == 1 {
      var s := Sextets(d[0], 0, 0);
      assert UnpaddedUrl(d) == [UrlChar(s[0]), UrlChar(s[1])];
      UrlCharsAlphabet(s[..2]);
      assert seq(2, k requires 0 <= k < 2 => UrlChar(s[..2][k])) == UnpaddedUrl(d);
    } else if |d| == 2 {
      var s := Sextets(d[0], d[1], 0);
      assert UnpaddedUrl(d) == [UrlChar(s[0]), UrlChar(s[1]), UrlChar(s[2])];
      UrlCharsAlphabet(s[..3]);
      assert seq(3, k requires 0 <= k < 3 => UrlChar(s[..3][k])) == UnpaddedUrl(d);
    } else if |d| >= 3 {
      UnpaddedUrlAlphabet(d[3..]);
      var s := Sextets(d[0], d[1], d[2]);
      var head := [UrlChar(s[0]), UrlChar(s[1]), UrlChar(s[2]), UrlChar(s[3])];
      assert UnpaddedUrl(d) == head + UnpaddedUrl(d[3..]);
      UrlCharsAlphabet(s);
      assert seq(4, k requires 0 <= k < 4 => UrlChar(s[k])) == head;
      AlphabetConcat(head, UnpaddedUrl(d[3..]));
    }
  }

  /** The output is drawn from the base64url alphabet, so it holds no '+', '/' or '='. */
  lemma UrlSafeAlphabet(data: seq<byte>)
    ensures URLSafeBase64(Some(data)).Ok?
    ensures var s := URLSafeBase64(Some(data)).value;
      (forall k :: 0 <= k < |s| ==> IsUrlAlphabet(s[k])) && '+' !in s && '/' !in s && '=' !in s
  {
    var s := UnpaddedUrl(data);
    assert URLSafeBase64(Some(data)) == Ok(s);
    UnpaddedUrlAlphabet(data);
    forall k | 0 <= k < |s| ensures s[k] != '+' && s[k] != '/' && s[k] != '=' {
      assert IsUrlAlphabet(s[k]);
    }
  }

  /** Empty data encodes to the empty string. */
  lemma UrlSafeEmpty()
    ensures URLSafeBase64(Some([])) == Ok("")
  {
  }

  /** The three bytes a group of four sextets encodes. */
  function GroupBytes(i0: nat, i1: nat, i2: nat, i3: nat): (b: seq<byte>)
    requires i0 < 64 && i1 < 64 && i2 < 64 && i3 < 64
    ensures |b| == 3
  {
    [i0 * 4 + i1 / 16, (i1 % 16) * 16 + i2 / 4, (i2 % 4) * 64 + i3]
  }

  /** Decoding of unpadded base64url text, group by group (the inverse of UnpaddedUrl). */
  function UrlDecode(s: string): seq<byte>
    decreases |s|
  {
    if |s| < 2 then []
    else if |s| == 2 then GroupBytes(UrlIndex(s[0]), UrlIndex(s[1]), 0, 0)[..1]
    else if |s| == 3 then GroupBytes(UrlIndex(s[0]), UrlIndex(s[1]), UrlIndex(s[2]), 0)[..2]
    else GroupBytes(UrlIndex(s[0]), UrlIndex(s[1]), UrlIndex(s[2]), UrlIndex(s[3])) + UrlDecode(s[4..])
  }

  lemma SextetsRoundTrip(b0: byte, b1: byte, b2: byte)
    ensures var s := Sextets(b0, b1, b2);
      GroupBytes(s[0], s[1], s[2], s[3]) == [b0, b1, b2]
  {
    var s := Sextets(b0, b1, b2);
    assert s[0] * 4 + s[1] / 16 == b0 by {
      assert s[1] / 16 == b0 % 4;
    }
    assert (s[1] % 16) * 16 + s[2] / 4 == b1 by {
      assert s[1] % 16 == b1 / 16;
      assert s[2] / 4 == b1 % 16;
    }
    assert (s[2] % 4) * 64 + s[3] == b2 by {
      assert s[2] % 4 == b2 / 64;
    }
  }

  lemma DecodeTwoChars(i0: nat, i1: nat)
    requires i0 < 64 && i1 < 64
    ensures UrlDecode([UrlChar(i0), UrlChar(i1)]) == GroupBytes(i0, i1, 0, 0)[..1]
  {
    UrlIndexOfChar(i0);
    UrlIndexOfChar(i1);
  }

  lemma DecodeThreeChars(i0: nat, i1: nat, i2: nat)
    requires i0 < 64 && i1 < 64 && i2 < 64
    ensures UrlDecode([UrlChar(i0), UrlChar(i1), UrlChar(i2)]) == GroupBytes(i0, i1, i2, 0)[..2]
  {
    UrlIndexOfChar(i0);
    UrlIndexOfChar(i1);
    UrlIndexOfChar(i2);
  }

  lemma DecodeGroup(i0: nat, i1: nat, i2: nat, i3: nat, tail: string)
    requires i0 < 64 && i1 < 64 && i2 < 64 && i3 < 64
    ensures var e := [UrlChar(i0), UrlChar(i1), UrlChar(i2), UrlChar(i3)] + tail;
      UrlDecode(e) == GroupBytes(i0, i1, i2, i3) + UrlDecode(tail)
  {
    var e := [UrlChar(i0), UrlChar(i1), UrlChar(i2), UrlChar(i3)] + tail;
    assert e[4..] == tail;
    UrlIndexOfChar(i0);
    UrlIndexOfChar(i1);
    UrlIndexOfChar(i2);
    UrlIndexOfChar(i3);
  }

  lemma UnpaddedOfOne(d: seq<byte>)
    requires |d| == 1
    ensures var s := Sextets(d[0], 0, 0); UnpaddedUrl(d) == [UrlChar(s[0]), UrlChar(s[1])]
  {
  }

  lemma UnpaddedOfTwo(d: seq<byte>)
    requires |d| == 2
    ensures var s := Sextets(d[0], d[1], 0); UnpaddedUrl(d) == [UrlChar(s[0]), UrlChar(s[1]), UrlChar(s[2])]
  {
  }

  lemma DecodeOneByte(d: seq<byte>)
    requires |d| == 1
    ensures UrlDecode(UnpaddedUrl(d)) == d
  {
    var s := Sextets(d[0], 0, 0);
    calc {
      UrlDecode(UnpaddedUrl(d));
    == { UnpaddedOfOne(d); }
      UrlDecode([UrlChar(s[0]), UrlChar(s[1])]);
    == { DecodeTwoChars(s[0], s[1]); }
      GroupBytes(s[0], s[1], 0, 0)[..1];
    == { SextetsRoundTrip(d[0], 0, 0); assert GroupBytes(s[0], s[1], 0, 0)[0] == GroupBytes(s[0], s[1], s[2], s[3])[0]; }
      [d[0]];
    == d;
    }
  }

  lemma DecodeTwoBytes(d: seq<byte>)
    requires |d| == 2
    ensures UrlDecode(UnpaddedUrl(d)) == d
  {
    var s := Sextets(d[0], d[1], 0);
    calc {
      UrlDecode(UnpaddedUrl(d));
    == { UnpaddedOfTwo(d); }
      UrlDecode([UrlChar(s[0]), UrlChar(s[1]), UrlChar(s[2])]);
    == { DecodeThreeChars(s[0], s[1], s[2]); }
      GroupBytes(s[0], s[1], s[2], 0)[..2];
    == { assert s[3] == 0; SextetsRoundTrip(d[0], d[1], 0); }
      [d[0], d[1], 0][..2];
    == { PairPrefix(d); }
      d;
    }
  }

  lemma PairPrefix(d: seq<byte>)
    requires |d| == 2
    ensures [d[0], d[1], 0][..2] == d
  {
    assert [d[0], d[1], 0][..2] == [d[0], d[1]];
  }

  /** Round trip: decoding the unpadded base64url text gives back the data. */
  lemma {:induction false} UrlDecodeRoundTrip(d: seq<byte>)
    ensures UrlDecode(UnpaddedUrl(d)) == d
    decreases |d|
  {
    if |d| == 1 {
      DecodeOneByte(d);
    } else if |d| == 2 {
      DecodeTwoBytes(d);
    } else if |d| >= 3 {
      var s := Sextets(d[0], d[1], d[2]);
      var tail := UnpaddedUrl(d[3..]);
      calc {
        UrlDecode(UnpaddedUrl(d));
      == { assert UnpaddedUrl(d) == [UrlChar(s[0]), UrlChar(s[1]), UrlChar(s[2]), UrlChar(s[3])] + tail; }
        UrlDecode([UrlChar(s[0]), UrlChar(s[1]), UrlChar(s[2]), UrlChar(s[3])] + tail);
      == { DecodeGroup(s[0], s[1], s[2], s[3], tail); }
        GroupBytes(s[0], s[1], s[2], s[3]) + UrlDecode(tail);
      == { SextetsRoundTrip(d[0], d[1], d[2]); UrlDecodeRoundTrip(d[3..]); }
        [d[0], d[1], d[2]] + d[3..];
      == { assert d == d[..3] + d[3..]; }
        d;
      }
    }
  }
}
