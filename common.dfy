/** Shared vocabulary of the model: optional values and results, the fixed-width
    integers of Go and kernel C, the rate formula shared by the two rate engines,
    and the few string operations (substring, prefix, ASCII lower-casing) the
    daemon borrows from Go's strings package. */
module Common {

  datatype Option<+T> = None | Some(value: T)

  /** A Go `(value, error)` pair whose value is discarded on error. */
  datatype Result<+T> = Ok(value: T) | Err(msg: string)

  /** What reading one of the /proc snapshot files can produce. */
  datatype ReadOutcome<+T> = OpenFailed | ReadFailed | ParseFailed | Parsed(doc: T)

  const TWO_63: int := 0x8000_0000_0000_0000
  const TWO_64: int := 0x1_0000_0000_0000_0000

  /** Go `uint64`, C `unsigned long` / `unsigned long long` on a 64-bit kernel. */
  type u64 = x: int | 0 <= x < 0x1_0000_0000_0000_0000

  /** Go `int64`. */
  type i64 = x: int | -0x8000_0000_0000_0000 <= x < 0x8000_0000_0000_0000

  /** Reduction modulo 2^64: what unsigned 64-bit addition, subtraction and
      multiplication do with their mathematical result. */
  function Wrap64(x: int): (r: u64)
    ensures 0 <= x < TWO_64 ==> r == x
    ensures (x - r) % TWO_64 == 0
  {
    x % TWO_64
  }

  /** Go's `int64(x)` conversion of a `uint64`: two's complement reinterpretation. */
  function ToInt64(x: u64): (r: i64)
    ensures x < TWO_63 ==> r == x
    ensures x >= TWO_63 ==> r < 0
    ensures Wrap64(r) == x
  {
    if x < TWO_63 then x else x - TWO_64
  }

  /** Utilisation percentage from a counter delta: the counter advanced by `delta`
      units, the counter runs at `unitsPerSec` units per second of CPU time,
      `deltaMs` milliseconds of wall time passed and the host has `numCPUs` CPUs:
      ((delta / unitsPerSec) / (deltaMs / 1000)) * 100 / numCPUs. */
  function RatePct(delta: int, unitsPerSec: real, deltaMs: int, numCPUs: int): real
    requires unitsPerSec != 0.0 && deltaMs > 0 && numCPUs > 0
  {
    ((delta as real / unitsPerSec) / (deltaMs as real / 1000.0)) * 100.0 / numCPUs as real
  }

  /** A counter that advanced gives a strictly positive rate. */
  lemma RatePctPositive(delta: int, unitsPerSec: real, deltaMs: int, numCPUs: int)
    requires unitsPerSec > 0.0 && deltaMs > 0 && numCPUs > 0
    requires delta > 0
    ensures RatePct(delta, unitsPerSec, deltaMs, numCPUs) > 0.0
  {
    var cpuSec := delta as real / unitsPerSec;
    var wallSec := deltaMs as real / 1000.0;
    assert cpuSec > 0.0;
    assert wallSec > 0.0;
    assert cpuSec / wallSec > 0.0;
    assert (cpuSec / wallSec) * 100.0 > 0.0;
  }

  /** Go `strings.Contains`. */
  function Contains(s: string, sub: string): bool
    decreases |s|
  {
    if |sub| > |s| then false
    else s[..|sub|] == sub || Contains(s[1..], sub)
  }

  /** `sub` occurs in `s` starting at index i. */
  predicate OccursAt(s: string, sub: string, i: nat) {
    i + |sub| <= |s| && s[i..i + |sub|] == sub
  }

  /** Dropping the first character shifts every later occurrence by one. */
  lemma OccursAtShift(s: string, sub: string, i: nat)
    requires 1 <= i && 1 <= |s|
    ensures OccursAt(s, sub, i) <==> OccursAt(s[1..], sub, i - 1)
  {
    if i + |sub| <= |s| {
      assert s[1..][i - 1..i - 1 + |sub|] == s[i..i + |sub|];
    }
  }

  /** Contains holds exactly when `sub` occurs at some position of `s`. */
  lemma {:induction false} ContainsIff(s: string, sub: string)
    ensures Contains(s, sub) <==> exists i: nat :: OccursAt(s, sub, i)
    decreases |s|
  {
    if |sub| > |s| {
    } else if s[..|sub|] == sub {
      assert OccursAt(s, sub, 0);
    } else {
      ContainsIff(s[1..], sub);
      if Contains(s, sub) {
        var j: nat :| OccursAt(s[1..], sub, j);
        OccursAtShift(s, sub, j + 1);
      } else {
        forall i: nat | OccursAt(s, sub, i)
          ensures false
        {
          if i > 0 {
            OccursAtShift(s, sub, i);
          }
        }
      }
    }
  }

  /** An occurrence at a known position is enough to make Contains true. */
  lemma ContainsAt(s: string, sub: string, i: nat)
    requires OccursAt(s, sub, i)
    ensures Contains(s, sub)
  {
    ContainsIff(s, sub);
  }

  /** A character of `sub` that `s` lacks rules out any occurrence. */
  lemma {:induction false} ContainsMissingChar(s: string, sub: string, c: char)
    requires c in sub && c !in s
    ensures !Contains(s, sub)
    decreases |s|
  {
    if |sub| <= |s| {
      ContainsMissingChar(s[1..], sub, c);
    }
  }

  /** Go `strings.HasPrefix`. */
  predicate HasPrefix(s: string, prefix: string) {
    |prefix| <= |s| && s[..|prefix|] == prefix
  }

  /** Lower-casing of one character, ASCII letters only. */
  function LowerChar(c: char): char {
    if 'A' <= c <= 'Z' then (c as int + 32) as char else c
  }

  /** Upper-casing of one character, ASCII letters only. */
  function UpperChar(c: char): char {
    if 'a' <= c <= 'z' then (c as int - 32) as char else c
  }

  /** Go `strings.ToLower`, restricted to ASCII letters. */
  function Lower(s: string): (r: string)
    ensures |r| == |s|
  {
    seq(|s|, i requires 0 <= i < |s| => LowerChar(s[i]))
  }

  function Upper(s: string): (r: string)
    ensures |r| == |s|
  {
    seq(|s|, i requires 0 <= i < |s| => UpperChar(s[i]))
  }

  /** Lower-casing forgets the case a string was written in. */
  lemma LowerForgetsCase(s: string)
    ensures Lower(Upper(s)) == Lower(s)
    ensures Lower(Lower(s)) == Lower(s)
  {
    forall i | 0 <= i < |s|
      ensures Lower(Upper(s))[i] == Lower(s)[i]
      ensures Lower(Lower(s))[i] == Lower(s)[i]
    {
      var c := s[i];
      if 'a' <= c <= 'z' {
        assert UpperChar(c) as int == c as int - 32;
      }
    }
  }

  /** Go `strings.Contains(strings.ToLower(s), strings.ToLower(sub))`. */
  predicate ContainsIgnoreCase(s: string, sub: string) {
    Contains(Lower(s), Lower(sub))
  }

  /** A C string: the characters of a buffer before its first NUL. */
  function CString(buf: seq<char>): (r: seq<char>)
    ensures |r| <= |buf| && r == buf[..|r|]
    ensures '\0' !in r
    ensures |r| < |buf| ==> buf[|r|] == '\0'
  {
    if buf == [] || buf[0] == '\0' then [] else [buf[0]] + CString(buf[1..])
  }

  /** A buffer with no NUL before index n and a NUL at n holds the C string buf[..n]. */
  lemma {:induction false} CStringAt(buf: seq<char>, n: nat)
    requires n < |buf| && buf[n] == '\0' && '\0' !in buf[..n]
    ensures CString(buf) == buf[..n]
  {
    if n > 0 {
      assert buf[0] in buf[..n];
      assert buf[1..][..n - 1] == buf[1..n];
      assert forall c :: c in buf[1..n] ==> c in buf[..n];
      CStringAt(buf[1..], n - 1);
    }
  }

  /** A NUL at index n ends the C string there or before. */
  lemma {:induction false} CStringStopsAt(buf: seq<char>, n: nat)
    requires n < |buf| && buf[n] == '\0'
    ensures |CString(buf)| <= n
  {
    if n > 0 && buf[0] != '\0' {
      CStringStopsAt(buf[1..], n - 1);
    }
  }

  /** The first index of `c` in `s`, or |s| when there is none. */
  function IndexOf(s: string, c: char): (k: nat)
    ensures k <= |s|
    ensures k < |s| ==> s[k] == c
    ensures forall i :: 0 <= i < k ==> s[i] != c
  {
    if s == [] then 0 else if s[0] == c then 0 else 1 + IndexOf(s[1..], c)
  }
}
