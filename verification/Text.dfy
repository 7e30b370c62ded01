/** ASCII trimming and lower-casing, as the string clean-ups of the source use them. */
module Text {
  predicate IsSpace(c: char) {
    c == ' ' || c == '\t' || c == '\n' || c == '\r' || c as int == 11 || c as int == 12
  }

  function TrimLeft(s: string): string {
    if s != "" && IsSpace(s[0]) then TrimLeft(s[1..]) else s
  }

  function TrimRight(s: string): string {
    if s != "" && IsSpace(s[|s| - 1]) then TrimRight(s[..|s| - 1]) else s
  }

  function Trim(s: string): string {
    TrimRight(TrimLeft(s))
  }

  function LowerChar(c: char): char {
    if 'A' <= c <= 'Z' then (c as int + 32) as char else c
  }

  function Lower(s: string): (r: string)
    ensures |r| == |s|
  {
    seq(|s|, i requires 0 <= i < |s| => LowerChar(s[i]))
  }

  function UpperChar(c: char): char {
    if 'a' <= c <= 'z' then (c as int - 32) as char else c
  }

  function Upper(s: string): (r: string)
    ensures |r| == |s|
  {
    seq(|s|, i requires 0 <= i < |s| => UpperChar(s[i]))
  }

  /** No blank at either end: what trimming leaves alone. */
  predicate Trimmed(s: string) {
    s == "" || (!IsSpace(s[0]) && !IsSpace(s[|s| - 1]))
  }

  lemma {:induction false} TrimLeftEnds(s: string)
    ensures TrimLeft(s) == "" || !IsSpace(TrimLeft(s)[0])
  {
    if s != "" && IsSpace(s[0]) {
      TrimLeftEnds(s[1..]);
    }
  }

  lemma {:induction false} TrimRightEnds(s: string)
    ensures TrimRight(s) == "" || !IsSpace(TrimRight(s)[|TrimRight(s)| - 1])
    ensures TrimRight(s) <= s
  {
    if s != "" && IsSpace(s[|s| - 1]) {
      TrimRightEnds(s[..|s| - 1]);
    }
  }

  /** Trimming leaves a trimmed string, and leaves a string alone exactly when it is trimmed already. */
  lemma TrimIsTrimmed(s: string)
    ensures Trimmed(Trim(s))
    ensures Trimmed(s) <==> Trim(s) == s
  {
    TrimLeftEnds(s);
    TrimRightEnds(TrimLeft(s));
  }

  lemma {:induction false} TrimLeftOf(pad: string, s: string)
    requires Trimmed(s) && s != "" && forall i | 0 <= i < |pad| :: IsSpace(pad[i])
    ensures TrimLeft(pad + s) == s
  {
    if pad == "" {
      assert pad + s == s;
    } else {
      assert (pad + s)[1..] == pad[1..] + s;
      TrimLeftOf(pad[1..], s);
    }
  }

  /** Lower and upper case shift the ASCII letters and leave every other character alone. */
  lemma CaseExactly(s: string, i: nat)
    requires i < |s|
    ensures Lower(s)[i] == if 'A' <= s[i] <= 'Z' then ((s[i] as int) + 32) as char else s[i]
    ensures Upper(s)[i] == if 'a' <= s[i] <= 'z' then ((s[i] as int) - 32) as char else s[i]
  {
  }

  /** Trimming on the left cuts off blanks and nothing else. */
  lemma {:induction false} TrimLeftCuts(s: string) returns (pad: string)
    ensures s == pad + TrimLeft(s) && forall i | 0 <= i < |pad| :: IsSpace(pad[i])
  {
    pad := "";
    if s != "" && IsSpace(s[0]) {
      pad := TrimLeftCuts(s[1..]);
      pad := [s[0]] + pad;
      assert s == [s[0]] + s[1..];
    }
  }

  /** Trimming only takes characters away. */
  lemma {:induction false} TrimRightIsPart(s: string)
    ensures forall c | c in TrimRight(s) :: c in s
  {
    if s != "" && IsSpace(s[|s| - 1]) {
      TrimRightIsPart(s[..|s| - 1]);
    }
  }

  lemma {:induction false} TrimIsPart(s: string)
    ensures forall c | c in Trim(s) :: c in s
  {
    if s != "" && IsSpace(s[0]) {
      TrimIsPart(s[1..]);
      assert Trim(s) == Trim(s[1..]);
      assert forall c | c in s[1..] :: c in s;
    } else {
      TrimRightIsPart(s);
    }
  }

  /** Text that neither starts nor ends with a blank survives trimming whole, behind what is left of a prefix. */
  lemma {:induction false} TrimKeepsTail(a: string, s: string) returns (left: string)
    requires s != "" && !IsSpace(s[0]) && !IsSpace(s[|s| - 1])
    ensures Trim(a + s) == left + s
  {
    if a == "" {
      left := "";
      assert a + s == s && left + s == s;
    } else if IsSpace(a[0]) {
      assert (a + s)[1..] == a[1..] + s;
      left := TrimKeepsTail(a[1..], s);
    } else {
      left := a;
      assert TrimLeft(a + s) == a + s;
      assert (a + s)[|a + s| - 1] == s[|s| - 1];
    }
  }
}
