/**
 * ULIDs as the alarm manager uses them: a 48-bit millisecond timestamp in
 * the first ten Crockford base-32 characters, then eighty random bits in
 * sixteen more. Only the layout is modelled; where the random bits come
 * from is a parameter.
 */
module Ulid {
  import opened Wrappers
  import opened Strings

  const TimeLen: nat := 10
  const RandomLen: nat := 16
  const TimeMax: nat := 0xFFFF_FFFF_FFFF
  const Crockford := "0123456789ABCDEFGHJKMNPQRSTVWXYZ"

  function Pow32(k: nat): (r: nat)
    ensures r >= 1
  {
    if k == 0 then 1 else 32 * Pow32(k - 1)
  }

  /** The digit `d` of the Crockford alphabet (no I, L, O or U). */
  function DigitChar(d: nat): char
    requires d < 32
  {
    if d < 10 then ('0' as int + d) as char
    else if d < 18 then ('A' as int + d - 10) as char
    else if d < 20 then ('J' as int + d - 18) as char
    else if d < 22 then ('M' as int + d - 20) as char
    else if d < 27 then ('P' as int + d - 22) as char
    else ('V' as int + d - 27) as char
  }

  /** The value of a Crockford digit, or None for any other character. */
  function DigitValue(c: char): Option<nat>
  {
    if '0' <= c <= '9' then Some(c as int - '0' as int)
    else if 'A' <= c <= 'H' then Some(c as int - 'A' as int + 10)
    else if 'J' <= c <= 'K' then Some(c as int - 'J' as int + 18)
    else if 'M' <= c <= 'N' then Some(c as int - 'M' as int + 20)
    else if 'P' <= c <= 'T' then Some(c as int - 'P' as int + 22)
    else if 'V' <= c <= 'Z' then Some(c as int - 'V' as int + 27)
    else None
  }

  predicate IsDigits(s: string)
  {
    forall i :: 0 <= i < |s| ==> DigitValue(s[i]).Some?
  }

  /** Big-endian base-32 value of a digit string. */
  function Decode(s: string): nat
    requires IsDigits(s)
  {
    if s == [] then 0 else DigitValue(s[0]).value * Pow32(|s| - 1) + Decode(s[1..])
  }

  /** `n` written with exactly `w` base-32 digits, most significant first. */
  function Encode(n: nat, w: nat): string
    requires n < Pow32(w)
    decreases w
  {
    if w == 0 then []
    else
      var p := Pow32(w - 1);
      LeadingDigitBound(n, p);
      [DigitChar(n / p)] + Encode(n % p, w - 1)
  }

  /** The id `nonMonoUlid` generates for time `time` and random part `rand`. */
  function Make(time: nat, rand: nat): string
    requires time <= TimeMax && rand < Pow32(RandomLen)
  {
    TimeFits();
    Encode(time, TimeLen) + Encode(rand, RandomLen)
  }

  /** `nonMonoUlid(ms)`: fails (throws) for a time outside 0 .. 2^48 - 1. */
  function Generate(ms: int, rand: nat): Option<string>
    requires rand < Pow32(RandomLen)
  {
    if 0 <= ms <= TimeMax then Some(Make(ms, rand)) else None
  }

  /** `decodeTime(id)`: the timestamp in the first ten characters; None where the library throws. */
  function DecodeTime(id: string): Option<nat>
  {
    if |id| != TimeLen + RandomLen || !IsDigits(id[..TimeLen]) then None
    else
      var t := Decode(id[..TimeLen]);
      if t > TimeMax then None else Some(t)
  }

  /**
   * A well-formed id: 26 characters, ten Crockford time digits, the first of
   * them at most 7 so that the time fits in 48 bits (`IsUlidDecodes`).
   */
  predicate IsUlid(id: string)
  {
    |id| == TimeLen + RandomLen && IsDigits(id[..TimeLen]) && '0' <= id[0] <= '7'
  }

  // ---------------------------------------------------------------- lemmas

  lemma LeadingDigitBound(n: nat, p: nat)
    requires p >= 1 && n < 32 * p
    ensures n / p < 32
  {
  }

  lemma TimeFits()
    ensures TimeMax < Pow32(TimeLen)
  {
    assert Pow32(2) == 1024;
    assert Pow32(4) == 1024 * 1024;
    assert Pow32(8) == 1024 * 1024 * 1024 * 1024;
    assert Pow32(10) == 1024 * 1024 * 1024 * 1024 * 1024;
  }

  /** The digit functions agree with the Crockford alphabet string. */
  lemma AlphabetMatches(d: nat)
    requires d < 32
    ensures DigitChar(d) == Crockford[d] && DigitValue(Crockford[d]) == Some(d)
  {
    if d < 10 { AlphabetSlice0To9(d); }
    else if d < 18 { AlphabetSlice10To17(d); }
    else if d < 20 { AlphabetSlice18To19(d); }
    else if d < 22 { AlphabetSlice20To21(d); }
    else if d < 27 { AlphabetSlice22To26(d); }
    else { AlphabetSlice27To31(d); }
  }

  lemma AlphabetSlice0To9(d: nat)
    requires 0 <= d < 10
    ensures DigitChar(d) == Crockford[d] && DigitValue(Crockford[d]) == Some(d)
  {
      if d == 0 {
        assert Crockford[0] == '0';
      } else if d == 1 {
        assert Crockford[1] == '1';
      } else if d == 2 {
        assert Crockford[2] == '2';
      } else if d == 3 {
        assert Crockford[3] == '3';
      } else if d == 4 {
        assert Crockford[4] == '4';
      } else if d == 5 {
        assert Crockford[5] == '5';
      } else if d == 6 {
        assert Crockford[6] == '6';
      } else if d == 7 {
        assert Crockford[7] == '7';
      } else if d == 8 {
        assert Crockford[8] == '8';
      } else {
        assert Crockford[9] == '9';
      }
  }

  lemma AlphabetSlice10To17(d: nat)
    requires 10 <= d < 18
    ensures DigitChar(d) == Crockford[d] && DigitValue(Crockford[d]) == Some(d)
  {
      if d == 10 {
        assert Crockford[10] == 'A';
      } else if d == 11 {
        assert Crockford[11] == 'B';
      } else if d == 12 {
        assert Crockford[12] == 'C';
      } else if d == 13 {
        assert Crockford[13] == 'D';
      } else if d == 14 {
        assert Crockford[14] == 'E';
      } else if d == 15 {
        assert Crockford[15] == 'F';
      } else if d == 16 {
        assert Crockford[16] == 'G';
      } else {
        assert Crockford[17] == 'H';
      }
  }

  lemma AlphabetSlice18To19(d: nat)
    requires 18 <= d < 20
    ensures DigitChar(d) == Crockford[d] && DigitValue(Crockford[d]) == Some(d)
  {
      if d == 18 {
        assert Crockford[18] == 'J';
      } else {
        assert Crockford[19] == 'K';
      }
  }

  lemma AlphabetSlice20To21(d: nat)
    requires 20 <= d < 22
    ensures DigitChar(d) == Crockford[d] && DigitValue(Crockford[d]) == Some(d)
  {
      if d == 20 {
        assert Crockford[20] == 'M';
      } else {
        assert Crockford[21] == 'N';
      }
  }

  lemma AlphabetSlice22To26(d: nat)
    requires 22 <= d < 27
    ensures DigitChar(d) == Crockford[d] && DigitValue(Crockford[d]) == Some(d)
  {
      if d == 22 {
        assert Crockford[22] == 'P';
      } else if d == 23 {
        assert Crockford[23] == 'Q';
      } else if d == 24 {
        assert Crockford[24] == 'R';
      } else if d == 25 {
        assert Crockford[25] == 'S';
      } else {
        assert Crockford[26] == 'T';
      }
  }

  lemma AlphabetSlice27To31(d: nat)
    requires 27 <= d < 32
    ensures DigitChar(d) == Crockford[d] && DigitValue(Crockford[d]) == Some(d)
  {
      if d == 27 {
        assert Crockford[27] == 'V';
      } else if d == 28 {
        assert Crockford[28] == 'W';
      } else if d == 29 {
        assert Crockford[29] == 'X';
      } else if d == 30 {
        assert Crockford[30] == 'Y';
      } else {
        assert Crockford[31] == 'Z';
      }
  }

  lemma DigitRoundTrip(d: nat)
    requires d < 32
    ensures DigitValue(DigitChar(d)) == Some(d)
  {
  }

  /** The alphabet is in ascending character order, so digit order is character order. */
  lemma DigitOrder(c1: char, c2: char)
    requires DigitValue(c1).Some? && DigitValue(c2).Some?
    ensures c1 < c2 <==> DigitValue(c1).value < DigitValue(c2).value
    ensures c1 == c2 <==> DigitValue(c1).value == DigitValue(c2).value
  {
  }

  lemma {:induction false} DecodeBound(s: string)
    requires IsDigits(s)
    ensures Decode(s) < Pow32(|s|)
  {
    if s != [] {
      DecodeBound(s[1..]);
      var d, p := DigitValue(s[0]).value, Pow32(|s| - 1);
      assert Decode(s) == d * p + Decode(s[1..]);
      assert Pow32(|s|) == 32 * p;
      LeadingDigitDominates(d, 32, p, Decode(s[1..]), 0);
    }
  }

  lemma DivMod(n: nat, p: nat)
    requires p >= 1
    ensures n == (n / p) * p + n % p && n % p < p
  {
  }

  lemma LeadingDigitDominates(da: nat, db: nat, p: nat, x: nat, y: nat)
    requires da < db && x < p
    ensures da * p + x < db * p + y
  {
    MulLe(da + 1, db, p);
    assert (da + 1) * p == da * p + p;
  }

  lemma {:induction false} MulLe(a: nat, b: nat, p: nat)
    requires a <= b
    ensures a * p <= b * p
    decreases b - a
  {
    if a < b {
      MulLe(a + 1, b, p);
      assert (a + 1) * p == a * p + p;
    }
  }

  /** Equally long digit strings sort as the numbers they spell. */
  lemma {:induction false} DecodeLess(a: string, b: string)
    requires |a| == |b| && IsDigits(a) && IsDigits(b)
    ensures Less(a, b) <==> Decode(a) < Decode(b)
    ensures a == b <==> Decode(a) == Decode(b)
  {
    if a != [] {
      DecodeLess(a[1..], b[1..]);
      DecodeBound(a[1..]);
      DecodeBound(b[1..]);
      var da, db, p := DigitValue(a[0]).value, DigitValue(b[0]).value, Pow32(|a| - 1);
      DigitOrder(a[0], b[0]);
      if da < db {
        LeadingDigitDominates(da, db, p, Decode(a[1..]), Decode(b[1..]));
      } else if db < da {
        LeadingDigitDominates(db, da, p, Decode(b[1..]), Decode(a[1..]));
      } else {
        assert a == [a[0]] + a[1..] && b == [b[0]] + b[1..];
      }
    }
  }

  /** One unfolding of `Encode`: the leading digit `q` and the remainder `r`. */
  lemma EncodeStep(n: nat, w: nat) returns (q: nat, r: nat)
    requires 0 < w && n < Pow32(w)
    ensures q < 32 && r < Pow32(w - 1) && n == q * Pow32(w - 1) + r
    ensures Encode(n, w) == [DigitChar(q)] + Encode(r, w - 1)
  {
    var p := Pow32(w - 1);
    LeadingDigitBound(n, p);
    DivMod(n, p);
    q, r := n / p, n % p;
  }

  lemma DecodeStep(c: char, tail: string)
    requires DigitValue(c).Some? && IsDigits(tail)
    ensures IsDigits([c] + tail)
    ensures Decode([c] + tail) == DigitValue(c).value * Pow32(|tail|) + Decode(tail)
  {
    var e := [c] + tail;
    assert e[1..] == tail;
    forall i | 0 <= i < |e| ensures DigitValue(e[i]).Some? {
      if i > 0 {
        assert e[i] == tail[i - 1];
      }
    }
  }

  lemma {:induction false} EncodeDecode(n: nat, w: nat)
    requires n < Pow32(w)
    ensures |Encode(n, w)| == w && IsDigits(Encode(n, w)) && Decode(Encode(n, w)) == n
    decreases w
  {
    if w > 0 {
      var q, r := EncodeStep(n, w);
      EncodeDecode(r, w - 1);
      DigitRoundTrip(q);
      DecodeStep(DigitChar(q), Encode(r, w - 1));
    }
  }

  /** Round trip: `decodeTime` recovers the time an id was generated for. */
  lemma DecodeTimeOfMake(time: nat, rand: nat)
    requires time <= TimeMax && rand < Pow32(RandomLen)
    ensures |Make(time, rand)| == TimeLen + RandomLen && IsDigits(Make(time, rand))
    ensures DecodeTime(Make(time, rand)) == Some(time)
  {
    TimeFits();
    EncodeDecode(time, TimeLen);
    EncodeDecode(rand, RandomLen);
    var id := Make(time, rand);
    assert id[..TimeLen] == Encode(time, TimeLen);
    assert forall i :: 0 <= i < |id| ==> id[i] == if i < TimeLen then Encode(time, TimeLen)[i] else Encode(rand, RandomLen)[i - TimeLen];
  }

  /** Generated ids sort by time first, then by their random part. */
  lemma MakeOrder(t1: nat, r1: nat, t2: nat, r2: nat)
    requires t1 <= TimeMax && r1 < Pow32(RandomLen)
    requires t2 <= TimeMax && r2 < Pow32(RandomLen)
    ensures Less(Make(t1, r1), Make(t2, r2)) <==> t1 < t2 || (t1 == t2 && r1 < r2)
  {
    TimeFits();
    EncodeDecode(t1, TimeLen);
    EncodeDecode(t2, TimeLen);
    EncodeDecode(r1, RandomLen);
    EncodeDecode(r2, RandomLen);
    LessConcat(Encode(t1, TimeLen), Encode(r1, RandomLen), Encode(t2, TimeLen), Encode(r2, RandomLen));
    DecodeLess(Encode(t1, TimeLen), Encode(t2, TimeLen));
    DecodeLess(Encode(r1, RandomLen), Encode(r2, RandomLen));
  }

  lemma TimeTop()
    ensures 8 * Pow32(TimeLen - 1) == TimeMax + 1
  {
    assert Pow32(2) == 1024;
    assert Pow32(4) == 1024 * 1024;
    assert Pow32(8) == 1024 * 1024 * 1024 * 1024;
  }

  /** An id is well formed exactly when `decodeTime` accepts it. */
  lemma IsUlidDecodes(id: string)
    ensures IsUlid(id) <==> DecodeTime(id).Some?
  {
    if |id| == TimeLen + RandomLen && IsDigits(id[..TimeLen]) {
      var s := id[..TimeLen];
      var d, p := DigitValue(s[0]).value, Pow32(TimeLen - 1);
      assert s[0] == id[0];
      DecodeBound(s[1..]);
      assert Decode(s) == d * p + Decode(s[1..]);
      TimeTop();
      if d < 8 {
        LeadingDigitDominates(d, 8, p, Decode(s[1..]), 0);
      } else {
        MulLe(8, d, p);
      }
    }
  }

  /** For any two well-formed ids, key order never contradicts time order. */
  lemma IdOrderFollowsTime(a: string, b: string)
    requires DecodeTime(a).Some? && DecodeTime(b).Some?
    ensures Less(a, b) ==> DecodeTime(a).value <= DecodeTime(b).value
    ensures DecodeTime(a).value < DecodeTime(b).value ==> Less(a, b)
  {
    assert a == a[..TimeLen] + a[TimeLen..];
    assert b == b[..TimeLen] + b[TimeLen..];
    LessConcat(a[..TimeLen], a[TimeLen..], b[..TimeLen], b[TimeLen..]);
    DecodeLess(a[..TimeLen], b[..TimeLen]);
  }
}
