/** The URL-safe base64 encoding of section 5 of RFC 4648: the unpadded form a token
    carries and the padded form the service decodes. Characters stand for bytes. */
module Base64Url {
  import opened Wrappers
  import opened Sequences

  newtype Byte = x: int | 0 <= x < 256

  type Sextet = x: int | 0 <= x < 64

  datatype DecodeError = Corrupt

  /** A-Z, a-z, 0-9, '-', '_' in this order. */
  function Symbol(v: Sextet): char {
    if v < 26 then ('A' as int + v) as char
    else if v < 52 then ('a' as int + v - 26) as char
    else if v < 62 then ('0' as int + v - 52) as char
    else if v == 62 then '-'
    else '_'
  }

  function Value(c: char): Option<Sextet> {
    if 'A' <= c <= 'Z' then Some(c as int - 'A' as int)
    else if 'a' <= c <= 'z' then Some(26 + c as int - 'a' as int)
    else if '0' <= c <= '9' then Some(52 + c as int - '0' as int)
    else if c == '-' then Some(62)
    else if c == '_' then Some(63)
    else None
  }

  predicate OverAlphabet(s: string) {
    forall i :: 0 <= i < |s| ==> Value(s[i]).Some?
  }

  lemma SymbolsRoundTrip(v: Sextet)
    ensures Value(Symbol(v)) == Some(v)
  {
  }

  lemma ValuesRoundTrip(c: char)
    requires Value(c).Some?
    ensures Symbol(Value(c).value) == c
  {
  }

  // ----- one group of three bytes and four symbols

  function First(a: Byte): Sextet { a as int / 4 }
  function Second(a: Byte, b: Byte): Sextet { a as int % 4 * 16 + b as int / 16 }
  function Third(b: Byte, c: Byte): Sextet { b as int % 16 * 4 + c as int / 64 }
  function Fourth(c: Byte): Sextet { c as int % 64 }

  function Byte0(v: Sextet, w: Sextet): Byte { (v * 4 + w / 16) as Byte }
  function Byte1(w: Sextet, x: Sextet): Byte { (w % 16 * 16 + x / 4) as Byte }
  function Byte2(x: Sextet, y: Sextet): Byte { (x % 4 * 64 + y) as Byte }

  /** The unpadded encoding. */
  function EncodeRaw(bytes: seq<Byte>): string {
    if |bytes| == 0 then ""
    else if |bytes| == 1 then [Symbol(First(bytes[0])), Symbol(Second(bytes[0], 0))]
    else if |bytes| == 2 then
      [Symbol(First(bytes[0])), Symbol(Second(bytes[0], bytes[1])), Symbol(Third(bytes[1], 0))]
    else
      [Symbol(First(bytes[0])), Symbol(Second(bytes[0], bytes[1])),
       Symbol(Third(bytes[1], bytes[2])), Symbol(Fourth(bytes[2]))] + EncodeRaw(bytes[3..])
  }

  /** The decoder skips line breaks anywhere. */
  function Strip(s: string): string {
    if s == "" then "" else Kept(s[0]) + Strip(s[1..])
  }

  function Kept(c: char): string {
    if c == '\r' || c == '\n' then "" else [c]
  }

  /** Padding may replace the last one or two symbols of the last group; bits that a padded
      group does not use are ignored. */
  function DecodeGroups(s: string): Result<seq<Byte>, DecodeError> {
    if s == "" then Ok([])
    else if |s| < 4 then Err(Corrupt)
    else if Value(s[0]).None? || Value(s[1]).None? then Err(Corrupt)
    else
      var v, w := Value(s[0]).value, Value(s[1]).value;
      if s[2] == '=' then
        if s[3] == '=' && |s| == 4 then Ok([Byte0(v, w)]) else Err(Corrupt)
      else if Value(s[2]).None? then Err(Corrupt)
      else
        var x := Value(s[2]).value;
        if s[3] == '=' then
          if |s| == 4 then Ok([Byte0(v, w), Byte1(w, x)]) else Err(Corrupt)
        else if Value(s[3]).None? then Err(Corrupt)
        else
          match DecodeGroups(s[4..])
          case Err(e) => Err(e)
          case Ok(rest) => Ok([Byte0(v, w), Byte1(w, x), Byte2(x, Value(s[3]).value)] + rest)
  }

  function Decode(s: string): Result<seq<Byte>, DecodeError> {
    DecodeGroups(Strip(s))
  }

  /** The padding the service appends. */
  function Pad(s: string): string {
    var rem := |s| % 4;
    if rem == 0 then s else s + seq(4 - rem, _ => '=')
  }

  // ----- the facts

  lemma PaddedLength(s: string)
    ensures |Pad(s)| % 4 == 0 && |s| <= |Pad(s)| <= |s| + 3
  {
  }

  lemma {:induction false} StripKeeps(s: string)
    requires '\r' !in s && '\n' !in s
    ensures Strip(s) == s
  {
    if s != "" {
      assert s == [s[0]] + s[1..];
      StripKeeps(s[1..]);
    }
  }

  lemma StripStep(s: string)
    ensures s != "" ==> Strip(s) == Kept(s[0]) + Strip(s[1..])
    ensures Strip("") == ""
  {
  }

  lemma {:induction false} StripConcat(a: string, b: string)
    ensures Strip(a + b) == Strip(a) + Strip(b)
  {
    hide Strip, Kept;
    StripStep(a);
    if a == "" {
      assert a + b == b;
    } else {
      StripConcat(a[1..], b);
      StripStep(a + b);
      assert (a + b)[0] == a[0] && (a + b)[1..] == a[1..] + b;
      Associative(Kept(a[0]), Strip(a[1..]), Strip(b));
    }
  }

  /** A line break makes no difference, wherever it stands. */
  lemma BreaksAreIgnored(a: string, c: char, b: string)
    requires c == '\r' || c == '\n'
    ensures Decode(a + [c] + b) == Decode(a + b)
  {
    StripConcat(a + [c], b);
    StripConcat(a, [c]);
    StripConcat(a, b);
    StripStep([c]);
    assert [c][1..] == "";
    hide Strip, DecodeGroups;
    assert Strip([c]) == "";
    assert Strip(a) + "" == Strip(a);
  }

  lemma PadStripped(s: string)
    requires '\r' !in s && '\n' !in s
    ensures Strip(Pad(s)) == Pad(s)
  {
    StripKeeps(Pad(s));
  }

  lemma AlphabetHasNoBreaks(s: string)
    requires OverAlphabet(s)
    ensures '\r' !in s && '\n' !in s && '=' !in s && '.' !in s
  {
  }

  lemma GroupRoundTrip(a: Byte, b: Byte, c: Byte)
    ensures Byte0(First(a), Second(a, b)) == a
    ensures Byte1(Second(a, b), Third(b, c)) == b
    ensures Byte2(Third(b, c), Fourth(c)) == c
  {
  }

  lemma {:induction false} EncodedOverAlphabet(bytes: seq<Byte>)
    ensures OverAlphabet(EncodeRaw(bytes))
  {
    if |bytes| >= 3 {
      EncodedOverAlphabet(bytes[3..]);
      EncodedGroup(bytes);
      var s := EncodeRaw(bytes);
      assert forall i :: 4 <= i < |s| ==> s[i] == s[4..][i - 4];
    } else if |bytes| >= 1 {
      EncodedTail(bytes);
    }
  }

  lemma ModThree(n: nat)
    requires n >= 3
    ensures n % 3 == (n - 3) % 3
  {
  }

  lemma ModFour(n: nat)
    requires n >= 4
    ensures n % 4 == (n - 4) % 4
  {
  }

  lemma {:induction false} EncodedLength(bytes: seq<Byte>)
    ensures |EncodeRaw(bytes)| % 4 == (if |bytes| % 3 == 0 then 0 else |bytes| % 3 + 1)
  {
    if |bytes| >= 3 {
      hide *;
      EncodedGroup(bytes);
      EncodedLength(bytes[3..]);
      ModThree(|bytes|);
      ModFour(|EncodeRaw(bytes)|);
    }
  }

  /** The last group, of one or two bytes. */
  lemma EncodedTail(bytes: seq<Byte>)
    requires 1 <= |bytes| <= 2
    ensures var s, b := EncodeRaw(bytes), if |bytes| == 2 then bytes[1] else 0;
            && |s| == |bytes| + 1 && OverAlphabet(s)
            && Value(s[0]) == Some(First(bytes[0])) && Value(s[1]) == Some(Second(bytes[0], b))
            && (|bytes| == 2 ==> Value(s[2]) == Some(Third(b, 0)))
  {
    var b := if |bytes| == 2 then bytes[1] else 0;
    SymbolsRoundTrip(First(bytes[0]));
    SymbolsRoundTrip(Second(bytes[0], b));
    SymbolsRoundTrip(Third(b, 0));
  }

  lemma EncodedGroup(bytes: seq<Byte>)
    requires |bytes| >= 3
    ensures var s := EncodeRaw(bytes);
            && |s| >= 4 && s[4..] == EncodeRaw(bytes[3..])
            && Value(s[0]) == Some(First(bytes[0])) && Value(s[1]) == Some(Second(bytes[0], bytes[1]))
            && Value(s[2]) == Some(Third(bytes[1], bytes[2])) && Value(s[3]) == Some(Fourth(bytes[2]))
  {
    SymbolsRoundTrip(First(bytes[0]));
    SymbolsRoundTrip(Second(bytes[0], bytes[1]));
    SymbolsRoundTrip(Third(bytes[1], bytes[2]));
    SymbolsRoundTrip(Fourth(bytes[2]));
  }

  /** The table of section 5 of RFC 4648. */
  const ALPHABET: string := "ABCDEFGHIJKLMNOPQRSTUVWXYZ" + "abcdefghijklmnopqrstuvwxyz" + "0123456789" + "-_"

  /** The symbols are those of the table, each standing for its index, and no other character has
      a value. */
  lemma SymbolsFollowTheTable(v: Sextet, c: char)
    ensures |ALPHABET| == 64
    ensures Symbol(v) == ALPHABET[v]
    ensures Value(c) == Some(v) <==> c == ALPHABET[v]
  {
    var upper, lower, digits := "ABCDEFGHIJKLMNOPQRSTUVWXYZ", "abcdefghijklmnopqrstuvwxyz", "0123456789";
    assert v < 26 ==> ALPHABET[v] == upper[v];
    assert 26 <= v < 52 ==> ALPHABET[v] == lower[v - 26];
    assert 52 <= v < 62 ==> ALPHABET[v] == digits[v - 52];
    SymbolsRoundTrip(v);
    if Value(c) == Some(v) {
      ValuesRoundTrip(c);
    }
  }

  /** The number that `n` symbols of `s` from position `i` denote in base 64; 0 if there are fewer. */
  function Digits64(s: string, i: nat, n: nat): nat {
    if n == 0 || i + n > |s| || Value(s[i + n - 1]).None? then 0
    else 64 * Digits64(s, i, n - 1) + Value(s[i + n - 1]).value
  }

  lemma Digits64Shift(s: string, t: string, i: nat, n: nat)
    requires |s| == |t| + 4 && s[4..] == t
    ensures Digits64(s, i + 4, n) == Digits64(t, i, n)
  {
    if n > 0 && i + n <= |t| {
      assert s[i + 4 + n - 1] == t[i + n - 1];
      Digits64Shift(s, t, i, n - 1);
    }
  }

  lemma FirstGroupBits(bytes: seq<Byte>)
    requires |bytes| >= 3
    ensures Digits64(EncodeRaw(bytes), 0, 4)
         == (bytes[0] as nat * 256 + bytes[1] as nat) * 256 + bytes[2] as nat
  {
    EncodedGroup(bytes);
    var s := EncodeRaw(bytes);
    assert Digits64(s, 0, 1) == Value(s[0]).value;
    assert Digits64(s, 0, 2) == 64 * Digits64(s, 0, 1) + Value(s[1]).value;
    assert Digits64(s, 0, 3) == 64 * Digits64(s, 0, 2) + Value(s[2]).value;
    assert Digits64(s, 0, 4) == 64 * Digits64(s, 0, 3) + Value(s[3]).value;
  }

  lemma TailBits(bytes: seq<Byte>)
    requires 1 <= |bytes| <= 2
    ensures |bytes| == 1 ==> Digits64(EncodeRaw(bytes), 0, 2) == bytes[0] as nat * 16
    ensures |bytes| == 2 ==> Digits64(EncodeRaw(bytes), 0, 3) == (bytes[0] as nat * 256 + bytes[1] as nat) * 4
  {
    EncodedTail(bytes);
    var s := EncodeRaw(bytes);
    assert Digits64(s, 0, 1) == Value(s[0]).value;
    assert Digits64(s, 0, 2) == 64 * Digits64(s, 0, 1) + Value(s[1]).value;
  }

  /** The encoding is big-endian: the four symbols of group `k` denote the same 24-bit number as its
      three bytes, and those of the last, shorter group the same number followed by zero bits. */
  lemma {:induction false} GroupsAreBigEndian(bytes: seq<Byte>, k: nat)
    ensures 3 * k + 3 <= |bytes| ==>
              Digits64(EncodeRaw(bytes), 4 * k, 4)
              == (bytes[3 * k] as nat * 256 + bytes[3 * k + 1] as nat) * 256 + bytes[3 * k + 2] as nat
    ensures 3 * k + 2 == |bytes| ==>
              Digits64(EncodeRaw(bytes), 4 * k, 3) == (bytes[3 * k] as nat * 256 + bytes[3 * k + 1] as nat) * 4
    ensures 3 * k + 1 == |bytes| ==> Digits64(EncodeRaw(bytes), 4 * k, 2) == bytes[3 * k] as nat * 16
  {
    hide EncodeRaw, Digits64, Value;
    if k == 0 {
      if |bytes| >= 3 {
        FirstGroupBits(bytes);
      } else if |bytes| >= 1 {
        TailBits(bytes);
      }
    } else if |bytes| > 3 {
      var rest := bytes[3..];
      EncodedGroup(bytes);
      GroupsAreBigEndian(rest, k - 1);
      Digits64Shift(EncodeRaw(bytes), EncodeRaw(rest), 4 * (k - 1), 4);
      Digits64Shift(EncodeRaw(bytes), EncodeRaw(rest), 4 * (k - 1), 3);
      Digits64Shift(EncodeRaw(bytes), EncodeRaw(rest), 4 * (k - 1), 2);
    }
  }

  lemma PadSplits(s: string)
    requires |s| >= 4
    ensures |Pad(s)| >= 4 && Pad(s)[..4] == s[..4] && Pad(s)[4..] == Pad(s[4..])
  {
    ModFour(|s|);
  }

  /** A payload over the alphabet whose first group is complete. */
  lemma DecodeSplits(s: string)
    requires OverAlphabet(s) && |s| >= 4
    ensures DecodeGroups(Pad(s)).Ok? <==> DecodeGroups(Pad(s[4..])).Ok?
    ensures DecodeGroups(Pad(s)).Ok? ==>
              DecodeGroups(Pad(s)).value
              == [Byte0(Value(s[0]).value, Value(s[1]).value), Byte1(Value(s[1]).value, Value(s[2]).value),
                  Byte2(Value(s[2]).value, Value(s[3]).value)] + DecodeGroups(Pad(s[4..])).value
  {
    PadSplits(s);
    var p := Pad(s);
    assert forall i :: 0 <= i < 4 ==> p[i] == p[..4][i] == s[i];
  }

  lemma ShortTails(s: string)
    requires OverAlphabet(s) && 0 < |s| < 4
    ensures |s| == 1 ==> DecodeGroups(Pad(s)).Err?
    ensures |s| == 2 ==> DecodeGroups(Pad(s)) == Ok([Byte0(Value(s[0]).value, Value(s[1]).value)])
    ensures |s| == 3 ==> DecodeGroups(Pad(s)) == Ok([Byte0(Value(s[0]).value, Value(s[1]).value),
                                                     Byte1(Value(s[1]).value, Value(s[2]).value)])
  {
  }

  lemma TailRoundTrip(bytes: seq<Byte>)
    requires 1 <= |bytes| <= 2
    ensures DecodeGroups(Pad(EncodeRaw(bytes))) == Ok(bytes)
  {
    hide *;
    EncodedTail(bytes);
    ShortTails(EncodeRaw(bytes));
    if |bytes| == 1 {
      GroupRoundTrip(bytes[0], 0, 0);
      assert bytes == [bytes[0]];
    } else {
      GroupRoundTrip(bytes[0], bytes[1], 0);
      assert bytes == [bytes[0], bytes[1]];
    }
  }

  lemma EmptyRoundTrip()
    ensures DecodeGroups(Pad(EncodeRaw([]))) == Ok([])
    ensures EncodeRaw([]) == "" && OverAlphabet("") && Canonical("")
    ensures Pad("") == ""
  {
  }

  lemma GroupExtendsRoundTrip(bytes: seq<Byte>)
    requires |bytes| >= 3 && DecodeGroups(Pad(EncodeRaw(bytes[3..]))) == Ok(bytes[3..])
    ensures DecodeGroups(Pad(EncodeRaw(bytes))) == Ok(bytes)
  {
    hide *;
    EncodedOverAlphabet(bytes);
    EncodedGroup(bytes);
    DecodeSplits(EncodeRaw(bytes));
    GroupRoundTrip(bytes[0], bytes[1], bytes[2]);
    assert bytes == [bytes[0], bytes[1], bytes[2]] + bytes[3..];
  }

  lemma {:induction false} GroupsRoundTrip(bytes: seq<Byte>)
    ensures DecodeGroups(Pad(EncodeRaw(bytes))) == Ok(bytes)
  {
    hide *;
    if |bytes| >= 3 {
      GroupsRoundTrip(bytes[3..]);
      GroupExtendsRoundTrip(bytes);
    } else if |bytes| >= 1 {
      TailRoundTrip(bytes);
    } else {
      EmptyRoundTrip();
    }
  }

  /** Repairing the padding of an unpadded encoding and decoding gives the bytes back. */
  lemma PaddingRepairRoundTrip(bytes: seq<Byte>)
    ensures Decode(Pad(EncodeRaw(bytes))) == Ok(bytes)
  {
    EncodedOverAlphabet(bytes);
    AlphabetHasNoBreaks(EncodeRaw(bytes));
    PadStripped(EncodeRaw(bytes));
    GroupsRoundTrip(bytes);
  }

  /** Whole groups over the alphabet, of which at most the last two characters are padding. */
  predicate WellFormed(s: string) {
    && |s| % 4 == 0
    && (|| OverAlphabet(s)
        || (|s| >= 4 && s[|s| - 1] == '=' && OverAlphabet(s[..|s| - 1]))
        || (|s| >= 4 && s[|s| - 1] == '=' && s[|s| - 2] == '=' && OverAlphabet(s[..|s| - 2])))
  }

  lemma OneGroupAccepted(s: string)
    requires |s| == 4
    ensures DecodeGroups(s).Ok? <==> WellFormed(s)
  {
    assert s[4..] == "";
    assert OverAlphabet(s) <==> Value(s[0]).Some? && Value(s[1]).Some? && Value(s[2]).Some? && Value(s[3]).Some?;
    assert OverAlphabet(s[..3]) <==> Value(s[0]).Some? && Value(s[1]).Some? && Value(s[2]).Some?;
    assert OverAlphabet(s[..2]) <==> Value(s[0]).Some? && Value(s[1]).Some?;
  }

  lemma AlphabetSplits(s: string)
    requires |s| >= 4
    ensures OverAlphabet(s) <==> OverAlphabet(s[..4]) && OverAlphabet(s[4..])
  {
    var t := s[4..];
    assert forall i :: 4 <= i < |s| ==> s[i] == t[i - 4];
    assert forall i :: 0 <= i < 4 ==> s[..4][i] == s[i];
  }

  lemma WellFormedSplits(s: string)
    requires |s| > 4
    ensures WellFormed(s) <==> OverAlphabet(s[..4]) && WellFormed(s[4..])
  {
    var n, t := |s|, s[4..];
    ModFour(n);
    AlphabetSplits(s);
    if n % 4 == 0 {
      assert n >= 8;
      AlphabetSplits(s[..n - 1]);
      AlphabetSplits(s[..n - 2]);
      assert s[..n - 1][..4] == s[..4] == s[..n - 2][..4];
      assert s[..n - 1][4..] == t[..|t| - 1];
      assert s[..n - 2][4..] == t[..|t| - 2];
    }
  }

  lemma DecodeStep(s: string)
    requires |s| > 4
    ensures DecodeGroups(s).Ok? <==> OverAlphabet(s[..4]) && DecodeGroups(s[4..]).Ok?
  {
    assert OverAlphabet(s[..4])
      <==> Value(s[0]).Some? && Value(s[1]).Some? && Value(s[2]).Some? && Value(s[3]).Some?;
  }

  /** The decoder accepts exactly the well-formed texts. */
  lemma {:induction false} DecoderAcceptsExactly(s: string)
    ensures DecodeGroups(s).Ok? <==> WellFormed(s)
  {
    if |s| == 4 {
      OneGroupAccepted(s);
    } else if |s| > 4 {
      DecodeStep(s);
      WellFormedSplits(s);
      DecoderAcceptsExactly(s[4..]);
    }
  }

  lemma FirstGroupDigits(s: string)
    requires OverAlphabet(s) && |s| >= 4
    ensures var v, w, x, y := Value(s[0]).value, Value(s[1]).value, Value(s[2]).value, Value(s[3]).value;
            Digits64(s, 0, 4) == (Byte0(v, w) as nat * 256 + Byte1(w, x) as nat) * 256 + Byte2(x, y) as nat
  {
    assert Digits64(s, 0, 1) == Value(s[0]).value;
    assert Digits64(s, 0, 2) == 64 * Digits64(s, 0, 1) + Value(s[1]).value;
    assert Digits64(s, 0, 3) == 64 * Digits64(s, 0, 2) + Value(s[2]).value;
    assert Digits64(s, 0, 4) == 64 * Digits64(s, 0, 3) + Value(s[3]).value;
  }

  lemma TailDigits(s: string)
    requires OverAlphabet(s) && 2 <= |s| <= 3
    ensures var v, w := Value(s[0]).value, Value(s[1]).value;
            |s| == 2 ==> Digits64(s, 0, 2) / 16 == Byte0(v, w) as nat
    ensures var v, w := Value(s[0]).value, Value(s[1]).value;
            |s| == 3 ==> Digits64(s, 0, 3) / 4 == Byte0(v, w) as nat * 256 + Byte1(w, Value(s[2]).value) as nat
  {
    assert Digits64(s, 0, 1) == Value(s[0]).value;
    assert Digits64(s, 0, 2) == 64 * Digits64(s, 0, 1) + Value(s[1]).value;
    if |s| == 3 {
      assert Digits64(s, 0, 3) == 64 * Digits64(s, 0, 2) + Value(s[2]).value;
    }
  }

  /** What the decoder makes of group `k` of a payload: the bytes of the number its symbols denote,
      the last group without the bits that fill no byte. */
  ghost predicate GroupDecoded(s: string, bytes: seq<Byte>, k: nat) {
    && (4 * k + 4 <= |s| ==>
          3 * k + 3 <= |bytes|
          && Digits64(s, 4 * k, 4)
             == (bytes[3 * k] as nat * 256 + bytes[3 * k + 1] as nat) * 256 + bytes[3 * k + 2] as nat)
    && (4 * k + 3 == |s| ==>
          3 * k + 2 == |bytes|
          && Digits64(s, 4 * k, 3) / 4 == bytes[3 * k] as nat * 256 + bytes[3 * k + 1] as nat)
    && (4 * k + 2 == |s| ==> 3 * k + 1 == |bytes| && Digits64(s, 4 * k, 2) / 16 == bytes[3 * k] as nat)
  }

  lemma FirstGroupDecoded(s: string)
    requires OverAlphabet(s) && DecodeGroups(Pad(s)).Ok?
    ensures GroupDecoded(s, DecodeGroups(Pad(s)).value, 0)
  {
    if |s| >= 4 {
      DecodeSplits(s);
      hide DecodeGroups, Pad;
      FirstGroupDigits(s);
    } else if |s| > 0 {
      ShortTails(s);
      hide DecodeGroups, Pad;
      if |s| >= 2 {
        TailDigits(s);
      }
    }
  }

  lemma GroupDecodedShift(s: string, rest: string, bytes: seq<Byte>, tail: seq<Byte>, k: nat)
    requires |s| == |rest| + 4 && s[4..] == rest && |bytes| == |tail| + 3 && bytes[3..] == tail
    requires GroupDecoded(rest, tail, k)
    ensures GroupDecoded(s, bytes, k + 1)
  {
    hide Digits64;
    Digits64Shift(s, rest, 4 * k, 4);
    Digits64Shift(s, rest, 4 * k, 3);
    Digits64Shift(s, rest, 4 * k, 2);
    assert forall m :: 0 <= m < |tail| ==> bytes[m + 3] == tail[m];
  }

  lemma DecodedTail(s: string)
    requires OverAlphabet(s) && |s| >= 4 && DecodeGroups(Pad(s)).Ok?
    ensures OverAlphabet(s[4..]) && DecodeGroups(Pad(s[4..])).Ok?
    ensures var bytes, tail := DecodeGroups(Pad(s)).value, DecodeGroups(Pad(s[4..])).value;
            |bytes| == |tail| + 3 && bytes[3..] == tail
  {
    TailOfAlphabet(s);
    DecodeSplits(s);
    hide DecodeGroups, Pad, Byte0, Byte1, Byte2, Value;
  }

  lemma {:induction false} GroupsDecoded(s: string, k: nat)
    requires OverAlphabet(s) && DecodeGroups(Pad(s)).Ok?
    ensures GroupDecoded(s, DecodeGroups(Pad(s)).value, k)
    decreases k
  {
    if k == 0 {
      hide Digits64, DecodeGroups, Pad, GroupDecoded;
      FirstGroupDecoded(s);
    } else if |s| >= 4 {
      hide *;
      DecodedTail(s);
      GroupsDecoded(s[4..], k - 1);
      GroupDecodedShift(s, s[4..], DecodeGroups(Pad(s)).value, DecodeGroups(Pad(s[4..])).value, k - 1);
    } else {
      hide DecodeGroups, Pad, Digits64, OverAlphabet;
    }
  }

  /** The decoder is big-endian too, on canonical payloads and on others. */
  lemma DecodesBigEndian(s: string, k: nat)
    requires OverAlphabet(s) && Decode(Pad(s)).Ok?
    ensures GroupDecoded(s, Decode(Pad(s)).value, k)
  {
    AlphabetHasNoBreaks(s);
    PadStripped(s);
    GroupsDecoded(s, k);
  }

  lemma PaddingShape(s: string)
    requires OverAlphabet(s)
    ensures WellFormed(Pad(s)) <==> |s| % 4 != 1
  {
    var p, rem := Pad(s), |s| % 4;
    assert Value('=').None?;
    PaddedLength(s);
    if rem == 1 {
      assert p[|s|] == '=' && p[..|p| - 1][|s|] == '=' && p[..|p| - 2][|s|] == '=';
    } else if rem == 2 {
      assert p[..|p| - 2] == s;
    } else if rem == 3 {
      assert p[..|p| - 1] == s;
    }
  }

  /** A payload over the alphabet decodes exactly when it does not call for three `=`. */
  lemma DecodesExactly(s: string)
    requires OverAlphabet(s)
    ensures Decode(Pad(s)).Ok? <==> |s| % 4 != 1
  {
    AlphabetHasNoBreaks(s);
    PadStripped(s);
    DecoderAcceptsExactly(Pad(s));
    hide DecodeGroups, Value;
    PaddingShape(s);
  }

  /** Whatever the other characters are, a payload that is padded with three `=` is rejected,
      unless line breaks shift the groups. */
  lemma ThreeEqualsNeverDecode(s: string)
    requires '\r' !in s && '\n' !in s && |s| % 4 == 1
    ensures Decode(Pad(s)).Err?
  {
    PadStripped(s);
    DecoderAcceptsExactly(Pad(s));
    hide DecodeGroups;
    var p := Pad(s);
    assert p == s + "===";
    assert Value('=').None?;
    assert p[|p| - 3] == p[..|p| - 1][|p| - 3] == p[..|p| - 2][|p| - 3] == '=';
  }

  /** The bits of the last symbol that no byte uses are zero. */
  predicate Canonical(s: string)
    requires OverAlphabet(s)
  {
    && (|s| % 4 == 2 ==> Value(s[|s| - 1]).value % 16 == 0)
    && (|s| % 4 == 3 ==> Value(s[|s| - 1]).value % 4 == 0)
  }

  lemma GroupUnique(v: Sextet, w: Sextet, x: Sextet, y: Sextet)
    ensures First(Byte0(v, w)) == v
    ensures Second(Byte0(v, w), Byte1(w, x)) == w
    ensures Third(Byte1(w, x), Byte2(x, y)) == x
    ensures Fourth(Byte2(x, y)) == y
    ensures Second(Byte0(v, w), 0) == w <==> w % 16 == 0
    ensures Third(Byte1(w, x), 0) == x <==> x % 4 == 0
  {
  }

  lemma SameSymbol(c: char, v: Sextet)
    requires Value(c).Some?
    ensures Symbol(v) == c <==> Value(c).value == v
  {
    SymbolsRoundTrip(v);
    ValuesRoundTrip(c);
  }

  lemma ShortReencoding(s: string)
    requires OverAlphabet(s) && 2 <= |s| <= 3
    ensures DecodeGroups(Pad(s)).Ok?
    ensures EncodeRaw(DecodeGroups(Pad(s)).value) == s <==> Canonical(s)
  {
    ShortTails(s);
    hide DecodeGroups, Pad, Value, Symbol;
    var v, w := Value(s[0]).value, Value(s[1]).value;
    var x := if |s| == 3 then Value(s[2]).value else 0;
    GroupUnique(v, w, x, 0);
    SameSymbol(s[0], v);
    SameSymbol(s[1], w);
    SameSymbol(s[1], Second(Byte0(v, w), 0));
    if |s| == 3 {
      SameSymbol(s[2], Third(Byte1(w, x), 0));
      assert s == [s[0], s[1], s[2]];
    } else {
      assert s == [s[0], s[1]];
    }
  }

  lemma GroupReencoding(s: string, rest: seq<Byte>)
    requires OverAlphabet(s) && |s| >= 4
    ensures var v, w, x, y := Value(s[0]).value, Value(s[1]).value, Value(s[2]).value, Value(s[3]).value;
            EncodeRaw([Byte0(v, w), Byte1(w, x), Byte2(x, y)] + rest) == s[..4] + EncodeRaw(rest)
  {
    var v, w, x, y := Value(s[0]).value, Value(s[1]).value, Value(s[2]).value, Value(s[3]).value;
    var bytes := [Byte0(v, w), Byte1(w, x), Byte2(x, y)] + rest;
    assert bytes[3..] == rest;
    GroupUnique(v, w, x, y);
    ValuesRoundTrip(s[0]);
    ValuesRoundTrip(s[1]);
    ValuesRoundTrip(s[2]);
    ValuesRoundTrip(s[3]);
    assert s[..4] == [s[0], s[1], s[2], s[3]];
  }

  lemma SameTail(front: string, a: string, b: string)
    ensures front + a == front + b <==> a == b
  {
    if front + a == front + b {
      assert a == (front + a)[|front|..] == b;
    }
  }

  lemma TailOfAlphabet(s: string)
    requires OverAlphabet(s) && |s| >= 4
    ensures OverAlphabet(s[4..])
    ensures Canonical(s[4..]) <==> Canonical(s)
  {
    var t := s[4..];
    ModFour(|s|);
    assert forall i :: 0 <= i < |t| ==> t[i] == s[i + 4];
  }

  lemma GroupExtendsReencoding(s: string)
    requires OverAlphabet(s) && |s| >= 4 && DecodeGroups(Pad(s[4..])).Ok?
    ensures DecodeGroups(Pad(s)).Ok?
    ensures EncodeRaw(DecodeGroups(Pad(s)).value) == s
       <==> EncodeRaw(DecodeGroups(Pad(s[4..])).value) == s[4..]
  {
    hide EncodeRaw, DecodeGroups, Pad, Byte0, Byte1, Byte2, Value;
    DecodeSplits(s);
    GroupReencoding(s, DecodeGroups(Pad(s[4..])).value);
    SameTail(s[..4], EncodeRaw(DecodeGroups(Pad(s[4..])).value), s[4..]);
    assert s == s[..4] + s[4..];
  }

  lemma {:induction false} ReencodesExactly(s: string)
    requires OverAlphabet(s) && |s| % 4 != 1
    ensures DecodeGroups(Pad(s)).Ok?
    ensures EncodeRaw(DecodeGroups(Pad(s)).value) == s <==> Canonical(s)
  {
    hide *;
    if |s| >= 4 {
      TailOfAlphabet(s);
      ModFour(|s|);
      ReencodesExactly(s[4..]);
      GroupExtendsReencoding(s);
    } else if |s| > 0 {
      ShortReencoding(s);
    } else {
      EmptyRoundTrip();
    }
  }

  /** Two payloads can decode to the same bytes; decoding loses nothing exactly on the
      payloads whose unused trailing bits are zero. */
  lemma DecodingInjectiveExactlyWhenCanonical(s: string)
    requires OverAlphabet(s) && |s| % 4 != 1
    ensures Decode(Pad(s)).Ok?
    ensures EncodeRaw(Decode(Pad(s)).value) == s <==> Canonical(s)
  {
    AlphabetHasNoBreaks(s);
    PadStripped(s);
    ReencodesExactly(s);
  }
}
