/** The string operations the services apply to e-mail addresses and cookie headers. White space is that of
    ECMAScript's `trim`; the case mapping covers the letters of ASCII. */
module Text {

  predicate IsSpace(c: char) {
    || c == ' ' || '\t' <= c <= '\r' || c == '\U{A0}' || c == '\U{1680}' || '\U{2000}' <= c <= '\U{200A}'
    || c == '\U{2028}' || c == '\U{2029}' || c == '\U{202F}' || c == '\U{205F}' || c == '\U{3000}' || c == '\U{FEFF}'
  }

  function LowerChar(c: char): char {
    if 'A' <= c <= 'Z' then c - 'A' + 'a' else c
  }

  function Lower(s: string): string {
    seq(|s|, i requires 0 <= i < |s| => LowerChar(s[i]))
  }

  function TrimLeft(s: string): string {
    if s != "" && IsSpace(s[0]) then TrimLeft(s[1..]) else s
  }

  function TrimRight(s: string): string {
    if s != "" && IsSpace(s[|s| - 1]) then TrimRight(s[..|s| - 1]) else s
  }

  function Trim(s: string): string {
    TrimRight(TrimLeft(s))
  }

  /** How an invitation's address is stored and looked up. */
  function Normalise(email: string): string {
    Trim(Lower(email))
  }

  predicate Trimmed(s: string) {
    s != "" ==> !IsSpace(s[0]) && !IsSpace(s[|s| - 1])
  }

  lemma {:induction false} TrimLeftTrims(s: string) returns (k: nat)
    ensures TrimLeft(s) != "" ==> !IsSpace(TrimLeft(s)[0])
    ensures k <= |s| && TrimLeft(s) == s[k..] && forall c :: c in s[..k] ==> IsSpace(c)
  {
    if s != "" && IsSpace(s[0]) {
      k := TrimLeftTrims(s[1..]);
      assert s[1..][k..] == s[k + 1..] && s[..k + 1] == [s[0]] + s[1..][..k];
      k := k + 1;
    } else {
      k := 0;
    }
  }

  lemma {:induction false} TrimRightTrims(s: string) returns (k: nat)
    ensures TrimRight(s) != "" ==> !IsSpace(TrimRight(s)[|TrimRight(s)| - 1])
    ensures k <= |s| && TrimRight(s) == s[..k] && forall c :: c in s[k..] ==> IsSpace(c)
  {
    if s != "" && IsSpace(s[|s| - 1]) {
      k := TrimRightTrims(s[..|s| - 1]);
      assert s[..|s| - 1][..k] == s[..k] && s[k..] == s[..|s| - 1][k..] + [s[|s| - 1]];
    } else {
      k := |s|;
    }
  }

  /** Trimming cuts a middle part out, drops only spaces and leaves none at its ends. */
  lemma TrimIsSlice(s: string) returns (i: nat, j: nat)
    ensures i <= j <= |s| && Trim(s) == s[i..j] && Trimmed(Trim(s))
    ensures forall c :: c in s[..i] || c in s[j..] ==> IsSpace(c)
  {
    i := TrimLeftTrims(s);
    var left := TrimLeft(s);
    j := TrimRightTrims(left);
    if Trim(s) != "" {
      assert Trim(s)[0] == left[0];
    }
    assert s[i..][..j] == s[i..i + j] && s[i..][j..] == s[i + j..];
    j := i + j;
  }

  lemma TrimTrimmed(s: string)
    requires Trimmed(s)
    ensures Trim(s) == s
  {
  }

  /** Normalising an already normalised address changes nothing. */
  lemma NormaliseTwice(email: string)
    ensures Normalise(Normalise(email)) == Normalise(email)
  {
    var low := Lower(email);
    var i, j := TrimIsSlice(low);
    var n := Normalise(email);
    forall k | 0 <= k < |n| ensures LowerChar(n[k]) == n[k] {
      assert n[k] == low[i + k] == LowerChar(email[i + k]);
    }
    assert Lower(n) == n;
    TrimTrimmed(n);
  }

  /** A normalised address is what is left of the address between its outer spaces, with no capital letter, and
      differs from it in the case of letters only. */
  lemma NormaliseExactly(email: string) returns (i: nat, j: nat)
    ensures i <= j <= |email| && |Normalise(email)| == j - i && Trimmed(Normalise(email))
    ensures forall c :: c in email[..i] || c in email[j..] ==> IsSpace(c)
    ensures forall k :: 0 <= k < j - i ==>
      var given, kept := email[i + k], Normalise(email)[k];
      !('A' <= kept <= 'Z') && (kept == given || ('A' <= given <= 'Z' && kept as int == given as int + 32))
  {
    var low := Lower(email);
    i, j := TrimIsSlice(low);
    forall k | 0 <= k < |email| && (k < i || j <= k) ensures IsSpace(email[k]) {
      assert k < i ==> low[k] == low[..i][k];
      assert j <= k ==> low[k] == low[j..][k - j];
      assert IsSpace(low[k]) && low[k] == LowerChar(email[k]);
    }
    forall k | 0 <= k < j - i ensures Normalise(email)[k] == LowerChar(email[i + k]) {
      assert low[i..j][k] == low[i + k];
    }
  }

  /** Spaces and line ends of ASCII count as spaces, its visible characters do not. */
  lemma SpacesOfAscii(c: char)
    requires c < '\U{80}'
    ensures IsSpace(c) <==> c in " \t\n\r" || c == '\U{0B}' || c == '\U{0C}'
  {
  }
}
