/** Shared vocabulary: optional values, results, clock readings and the few
    text operations of the Go standard library that the backend relies on. */
module Base {

  datatype Option<+T> = None | Some(value: T)

  datatype Result<+T, +E> = Success(value: T) | Failure(error: E)

  /** A clock reading or a duration, in nanoseconds. */
  type Time = int

  const SECOND: Time := 1_000_000_000
  const MINUTE: Time := 60 * SECOND

  /** The last element of a run, and the run before it. */
  function Last<T>(s: seq<T>): T
    requires s != []
  {
    s[|s| - 1]
  }

  function Front<T>(s: seq<T>): seq<T>
    requires s != []
  {
    s[..|s| - 1]
  }

  /** Sets that differ at most in k. */
  lemma SetAfter<T>(s: set<T>, s': set<T>, k: T)
    requires s - {k} == s' - {k}
    ensures |s'| + (if k in s then 1 else 0) == |s| + (if k in s' then 1 else 0)
  {
    var rest := s - {k};
    assert s == if k in s then rest + {k} else rest;
    assert s' == if k in s' then rest + {k} else rest;
  }
}

/** ASCII versions of strings.TrimSpace, strings.ToUpper and strings.ToLower. */
module Text {

  predicate IsSpace(c: char) {
    c == ' ' || ('\t' <= c <= '\r')
  }

  function TrimLeft(s: string): string {
    if s != "" && IsSpace(s[0]) then TrimLeft(s[1..]) else s
  }

  function TrimRight(s: string): string {
    if s != "" && IsSpace(s[|s| - 1]) then TrimRight(s[..|s| - 1]) else s
  }

  function Trim(s: string): string {
    TrimRight(TrimLeft(s))
  }

  /** Neither end of s is white space. */
  predicate Trimmed(s: string) {
    s == "" || (!IsSpace(s[0]) && !IsSpace(s[|s| - 1]))
  }

  lemma TrimRightKeepsHead(s: string)
    requires s != "" && !IsSpace(s[0])
    ensures TrimRight(s) != "" && TrimRight(s)[0] == s[0]
    ensures !IsSpace(TrimRight(s)[|TrimRight(s)| - 1])
  {
  }

  lemma TrimLeftHead(s: string)
    ensures TrimLeft(s) == "" || !IsSpace(TrimLeft(s)[0])
  {
  }

  /** Trimming yields a trimmed string, and changes exactly the strings that are not trimmed. */
  lemma TrimIsTrimmed(s: string)
    ensures Trimmed(Trim(s))
    ensures Trim(s) == s <==> Trimmed(s)
  {
    TrimLeftHead(s);
    if TrimLeft(s) != "" {
      TrimRightKeepsHead(TrimLeft(s));
    }
  }

  /** The six ASCII white-space characters. */
  predicate IsWhite(c: char) {
    c in [' ', '\t', '\n', '\r', 11 as char, 12 as char]
  }

  lemma {:induction false} TrimLeftCuts(s: string) returns (i: nat)
    ensures i <= |s| && TrimLeft(s) == s[i..] && (forall k :: 0 <= k < i ==> IsWhite(s[k]))
        && (i < |s| ==> !IsWhite(s[i]))
  {
    if s != "" && IsSpace(s[0]) {
      i := TrimLeftCuts(s[1..]);
      i := i + 1;
    } else {
      i := 0;
    }
  }

  lemma {:induction false} TrimRightCuts(s: string) returns (j: nat)
    ensures j <= |s| && TrimRight(s) == s[..j] && (forall k :: j <= k < |s| ==> IsWhite(s[k]))
        && (j > 0 ==> !IsWhite(s[j - 1]))
  {
    if s != "" && IsSpace(s[|s| - 1]) {
      j := TrimRightCuts(s[..|s| - 1]);
    } else {
      j := |s|;
    }
  }

  /** Trimming cuts white space off both ends, and nothing else: what is left begins
      and ends with some other character. */
  lemma {:induction false} TrimCuts(s: string) returns (i: nat, j: nat)
    ensures i <= j <= |s| && Trim(s) == s[i..j]
    ensures forall k :: 0 <= k < i || j <= k < |s| ==> IsWhite(s[k])
    ensures i < j ==> !IsWhite(s[i]) && !IsWhite(s[j - 1])
  {
    i := TrimLeftCuts(s);
    var n := TrimRightCuts(s[i..]);
    j := i + n;
    assert s[i..][..n] == s[i..j];
    forall k | j <= k < |s| ensures IsWhite(s[k]) { assert s[k] == s[i..][k - i]; }
  }

  function UpperChar(c: char): char {
    if 'a' <= c <= 'z' then ((c as int) - 32) as char else c
  }

  function LowerChar(c: char): char {
    if 'A' <= c <= 'Z' then ((c as int) + 32) as char else c
  }

  function ToUpper(s: string): (r: string)
    ensures |r| == |s|
    ensures forall i :: 0 <= i < |s| ==> r[i] == UpperChar(s[i])
  {
    seq(|s|, i requires 0 <= i < |s| => UpperChar(s[i]))
  }

  function ToLower(s: string): (r: string)
    ensures |r| == |s|
    ensures forall i :: 0 <= i < |s| ==> r[i] == LowerChar(s[i])
  {
    seq(|s|, i requires 0 <= i < |s| => LowerChar(s[i]))
  }

  const UPPER_CASE := "ABCDEFGHIJKLMNOPQRSTUVWXYZ"
  const LOWER_CASE := "abcdefghijklmnopqrstuvwxyz"

  /** Letter i of one alphabet becomes letter i of the other; every other character stays. */
  lemma LettersChangeCase(s: string, k: nat, i: nat)
    requires k < |s| && i < 26
    ensures s[k] == LOWER_CASE[i] ==> ToUpper(s)[k] == UPPER_CASE[i]
    ensures s[k] == UPPER_CASE[i] ==> ToLower(s)[k] == LOWER_CASE[i]
    ensures s[k] !in LOWER_CASE ==> ToUpper(s)[k] == s[k]
    ensures s[k] !in UPPER_CASE ==> ToLower(s)[k] == s[k]
  {
    LettersAre(i);
    if 'a' <= s[k] <= 'z' {
      LettersAre((s[k] as int) - 97);
      assert LOWER_CASE[(s[k] as int) - 97] == s[k];
    }
    if 'A' <= s[k] <= 'Z' {
      LettersAre((s[k] as int) - 65);
      assert UPPER_CASE[(s[k] as int) - 65] == s[k];
    }
  }

  lemma LettersAre(i: nat)
    requires i < 26
    ensures LOWER_CASE[i] as int == 97 + i && UPPER_CASE[i] as int == 65 + i
  {
  }
}
