/**
 * internal/common/utils.go: the shared backoff schedule and ticker, the float-string
 * tidy-up helper, and the HMAC hex helpers used on both ends of the wire.
 * HMAC-SHA256 (RFC 2104 over FIPS 180-4) is not modelled: it is the parameter `mac`.
 */
module Common {
  import opened Wrappers

  /** A Go byte (uint8). */
  type Byte = x: int | 0 <= x < 256

  /** An HMAC-SHA256 function: key and message to digest. */
  type Mac = (string, seq<Byte>) -> seq<Byte>

  const MetricTypeGauge: string := "gauge"
  const MetricTypeCounter: string := "counter"

  /** DefaultBackoffSchedule, in milliseconds. */
  const DefaultBackoffSchedule: seq<nat> := [1000, 3000, 5000]

  // ---------------------------------------------------------------- strings

  predicate ContainsChar(s: string, c: char) {
    exists i :: 0 <= i < |s| && s[i] == c
  }

  /** sub occurs in s at position i. */
  predicate OccursAt(s: string, sub: string, i: int) {
    0 <= i <= |s| - |sub| && s[i..i + |sub|] == sub
  }

  /** strings.Contains(s, sub). */
  predicate Contains(s: string, sub: string) {
    exists i :: 0 <= i <= |s| && OccursAt(s, sub, i)
  }

  /** strings.HasSuffix(s, suffix). */
  predicate HasSuffix(s: string, suffix: string) {
    |suffix| <= |s| && s[|s| - |suffix|..] == suffix
  }

  /** strings.TrimRight(s, [c]) for a one-character cutset. */
  function TrimRightChar(s: string, c: char): (r: string)
    ensures |r| <= |s| && r == s[..|r|]
    ensures forall i :: |r| <= i < |s| ==> s[i] == c
    ensures r == [] || r[|r| - 1] != c
  {
    if s == [] || s[|s| - 1] != c then s else TrimRightChar(s[..|s| - 1], c)
  }

  /** removeTrailingZeros. */
  function RemoveTrailingZeros(s: string): string
  {
    if ContainsChar(s, '.') then TrimRightChar(TrimRightChar(s, '0'), '.') else s
  }

  /** A string without '.' is left alone. */
  lemma RemoveTrailingZerosNoDot(s: string)
    requires !ContainsChar(s, '.')
    ensures RemoveTrailingZeros(s) == s
  {
  }

  /**
   * With a '.', the result r is s with its run of trailing '0's stripped (leaving a,
   * which does not end in '0') and then the run of trailing '.'s of a stripped.
   */
  lemma RemoveTrailingZerosShape(s: string)
    requires ContainsChar(s, '.')
    ensures var a := TrimRightChar(s, '0');
      var r := RemoveTrailingZeros(s);
      && |r| <= |a| <= |s| && s[..|r|] == r && s[..|a|] == a
      && (forall i :: |r| <= i < |a| ==> s[i] == '.')
      && (forall i :: |a| <= i < |s| ==> s[i] == '0')
      && (a == [] || a[|a| - 1] != '0')
      && (r == [] || r[|r| - 1] != '.')
  {
    var a := TrimRightChar(s, '0');
    var r := TrimRightChar(a, '.');
    assert s[..|a|] == a;
    assert s[..|r|] == r;
    forall i | |r| <= i < |a| ensures s[i] == '.' {
      assert s[i] == a[i];
    }
  }

  function DotCount(s: string): nat {
    if s == [] then 0 else (if s[0] == '.' then 1 else 0) + DotCount(s[1..])
  }

  lemma {:induction false} DotCountPrefix(s: string, n: nat)
    requires n <= |s|
    ensures DotCount(s[..n]) <= DotCount(s)
    ensures DotCount(s[..n]) == DotCount(s) && n < |s| && s[n] == '.' ==> false
  {
    if n > 0 {
      assert s[..n][1..] == s[1..][..n - 1];
      DotCountPrefix(s[1..], n - 1);
    } else if n < |s| && s[n] == '.' {
      assert DotCount(s) >= 1;
    }
  }

  lemma {:induction false} ContainsDotCount(s: string)
    ensures ContainsChar(s, '.') <==> DotCount(s) > 0
  {
    if s != [] {
      ContainsDotCount(s[1..]);
      if ContainsChar(s, '.') && s[0] != '.' {
        var i :| 0 <= i < |s| && s[i] == '.';
        assert s[1..][i - 1] == '.';
      }
      if ContainsChar(s[1..], '.') {
        var i :| 0 <= i < |s| - 1 && s[1..][i] == '.';
        assert s[i + 1] == '.';
      }
    }
  }

  /**
   * On strings with at most one '.', such as strconv.FormatFloat output,
   * removeTrailingZeros is idempotent.
   */
  lemma RemoveTrailingZerosIdempotent(s: string)
    requires DotCount(s) <= 1
    ensures RemoveTrailingZeros(RemoveTrailingZeros(s)) == RemoveTrailingZeros(s)
  {
    if ContainsChar(s, '.') {
      var a := TrimRightChar(s, '0');
      var r := TrimRightChar(a, '.');
      if |r| < |a| {
        // the one '.' of s was stripped, so r has none left
        assert a[|r|] == '.';
        assert s[..|r|] == r && s[|r|] == '.' by {
          assert s[..|a|] == a;
        }
        OnlyDotEndsPrefix(s, |r|);
      } else {
        assert r == a;
      }
    }
  }

  /** Before the only '.' of a string there is no '.'. */
  lemma OnlyDotEndsPrefix(s: string, n: nat)
    requires DotCount(s) <= 1 && n < |s| && s[n] == '.'
    ensures !ContainsChar(s[..n], '.')
  {
    DotCountPrefix(s, n);
    ContainsDotCount(s[..n]);
  }

  /** Without the one-'.' premise idempotence fails: "1.0.0" becomes "1.0", then "1". */
  lemma RemoveTrailingZerosTwoDots()
    ensures RemoveTrailingZeros("1.0.0") == "1.0"
    ensures RemoveTrailingZeros("1.0") == "1"
  {
    assert "1.0.0"[1] == '.';
    assert "1.0"[1] == '.';
    assert "1.0.0"[..4] == "1.0.";
    assert "1.0."[..3] == "1.0";
    assert "1.0"[..2] == "1.";
    assert "1."[..1] == "1";
  }

  // ---------------------------------------------------------------- hex

  function HexDigit(n: nat): (c: char)
    requires n < 16
  {
    if n < 10 then ('0' as int + n) as char else ('a' as int + n - 10) as char
  }

  /** The value of one hex digit, either case, or None (hex.InvalidByteError). */
  function HexValue(c: char): (r: Option<nat>)
    ensures r.Some? ==> r.value < 16
  {
    if '0' <= c <= '9' then Some(c as int - '0' as int)
    else if 'a' <= c <= 'f' then Some(c as int - 'a' as int + 10)
    else if 'A' <= c <= 'F' then Some(c as int - 'A' as int + 10)
    else None
  }

  lemma HexValueOfDigit(n: nat)
    requires n < 16
    ensures HexValue(HexDigit(n)) == Some(n)
  {
  }

  /** hex.EncodeToString: two lower-case digits per byte, high nibble first. */
  function HexEncode(b: seq<Byte>): (s: string)
    ensures |s| == 2 * |b|
  {
    if b == [] then []
    else [HexDigit(b[0] / 16), HexDigit(b[0] % 16)] + HexEncode(b[1..])
  }

  /** hex.DecodeString: None for odd length or a non-hex character. */
  function HexDecode(s: string): (r: Option<seq<Byte>>)
    ensures r.Some? ==> 2 * |r.value| == |s|
  {
    if s == [] then Some([])
    else if |s| == 1 then None
    else
      var hi, lo, rest := HexValue(s[0]), HexValue(s[1]), HexDecode(s[2..]);
      if hi.None? || lo.None? || rest.None? then None
      else Some([hi.value * 16 + lo.value] + rest.value)
  }

  lemma ByteNibbles(x: Byte)
    ensures x / 16 < 16
    ensures x / 16 * 16 + x % 16 == x
  {
  }

  lemma {:induction false} HexRoundTrip(b: seq<Byte>)
    ensures HexDecode(HexEncode(b)) == Some(b)
  {
    if b != [] {
      var hi, lo := b[0] / 16, b[0] % 16;
      ByteNibbles(b[0]);
      var s := HexEncode(b);
      var tail := HexEncode(b[1..]);
      assert s == [HexDigit(hi), HexDigit(lo)] + tail;
      assert s[0] == HexDigit(hi) && s[1] == HexDigit(lo) && s[2..] == tail;
      HexValueOfDigit(hi);
      HexValueOfDigit(lo);
      HexRoundTrip(b[1..]);
      assert HexDecode(s) == Some([hi * 16 + lo] + b[1..]);
      assert [b[0]] + b[1..] == b;
    }
  }

  lemma {:induction false} HexEncodeIsHex(b: seq<Byte>)
    ensures forall i :: 0 <= i < |HexEncode(b)| ==> HexValue(HexEncode(b)[i]).Some?
  {
    if b != [] {
      HexEncodeIsHex(b[1..]);
      var hi, lo := b[0] / 16, b[0] % 16;
      HexValueOfDigit(hi);
      HexValueOfDigit(lo);
      var s := HexEncode(b);
      forall i | 0 <= i < |s| ensures HexValue(s[i]).Some? {
        if i >= 2 {
          assert s[i] == HexEncode(b[1..])[i - 2];
        }
      }
    }
  }

  // ---------------------------------------------------------------- hashes

  /** ComputeHash: the hex-encoded HMAC of data under key. */
  function ComputeHash(mac: Mac, key: string, data: seq<Byte>): string
  {
    HexEncode(mac(key, data))
  }

  /** With a 32-byte digest (SHA-256), ComputeHash is 64 hex characters that decode back. */
  lemma ComputeHashShape(mac: Mac, key: string, data: seq<Byte>)
    requires |mac(key, data)| == 32
    ensures |ComputeHash(mac, key, data)| == 64
    ensures HexDecode(ComputeHash(mac, key, data)) == Some(mac(key, data))
  {
    HexRoundTrip(mac(key, data));
  }

  /**
   * CompareHashes: both arguments must be valid hex, and the decoded bytes are compared
   * (hmac.Equal, constant time; unequal lengths compare unequal).
   */
  function CompareHashes(hash1: string, hash2: string): (ok: bool)
    ensures ok <==> HexDecode(hash1).Some? && HexDecode(hash2).Some?
                    && HexDecode(hash1).value == HexDecode(hash2).value
  {
    match (HexDecode(hash1), HexDecode(hash2))
    case (Some(h1), Some(h2)) => h1 == h2
    case _ => false
  }

  /** A hash compares equal to a freshly computed one exactly when the digests agree. */
  lemma CompareComputedHashes(d1: seq<Byte>, d2: seq<Byte>)
    ensures CompareHashes(HexEncode(d1), HexEncode(d2)) <==> d1 == d2
  {
    HexRoundTrip(d1);
    HexRoundTrip(d2);
  }

  /** Comparison ignores the case of the hex digits: "AB" matches "ab". */
  lemma CompareHashesIgnoresCase()
    ensures CompareHashes("AB", "ab")
    ensures !CompareHashes("ab", "a")
    ensures !CompareHashes("zz", "zz")
  {
    assert HexDecode("AB") == Some([0xab]) by {
      var s := "AB";
      assert s[0] == 'A' && s[1] == 'B' && s[2..] == [];
      assert HexValue('A') == Some(10) && HexValue('B') == Some(11);
      assert HexDecode(s[2..]) == Some([]);
      assert HexDecode(s) == Some([10 * 16 + 11] + []);
      assert [10 * 16 + 11] + [] == [0xab];
    }
    assert HexDecode("ab") == Some([0xab]) by {
      var s := "ab";
      assert s[0] == 'a' && s[1] == 'b' && s[2..] == [];
      assert HexValue('a') == Some(10) && HexValue('b') == Some(11);
    }
  }

  // ---------------------------------------------------------------- backoff

  /**
   * GetBackoffTicker as the sequence of waits that precede each tick: the first tick
   * comes at once, then one tick after each scheduled wait, and the channel closes.
   * `cancelAfter`, when present, is the number of ticks delivered before the goroutine
   * observes the cancelled context and closes the channel early.
   */
  function BackoffTicks(schedule: seq<nat>, cancelAfter: Option<nat>): (ticks: seq<nat>)
    ensures |ticks| <= |schedule| + 1
    ensures cancelAfter.None? ==> |ticks| == |schedule| + 1
    ensures cancelAfter.Some? ==> |ticks| <= cancelAfter.value
  {
    var all := [0] + schedule;
    match cancelAfter
    case None => all
    case Some(k) => if k < |all| then all[..k] else all
  }

  function Sum(s: seq<nat>): nat {
    if s == [] then 0 else s[0] + Sum(s[1..])
  }

  lemma {:induction false} SumSnoc(s: seq<nat>, x: nat)
    ensures Sum(s + [x]) == Sum(s) + x
  {
    if s != [] {
      assert (s + [x])[1..] == s[1..] + [x];
      SumSnoc(s[1..], x);
    }
  }

  /** Before tick k+1 the consumer has waited Σ schedule[..k]. */
  lemma {:induction false} BackoffTicksElapsed(schedule: seq<nat>, k: nat)
    requires k <= |schedule|
    ensures Sum(BackoffTicks(schedule, None)[..k + 1]) == Sum(schedule[..k])
  {
    var all := BackoffTicks(schedule, None);
    if k == 0 {
      assert all[..1] == [0];
    } else {
      BackoffTicksElapsed(schedule, k - 1);
      assert all[..k + 1] == all[..k] + [schedule[k - 1]];
      assert schedule[..k] == schedule[..k - 1] + [schedule[k - 1]];
      SumSnoc(all[..k], schedule[k - 1]);
      SumSnoc(schedule[..k - 1], schedule[k - 1]);
    }
  }
}
