/** Shared result types and the string functions the authoring code relies on. */
module Prelude {
  datatype Option<+T> = None | Some(value: T)

  datatype Result<+T, +E> = Ok(value: T) | Err(error: E)

  /** The characters with the Unicode property White_Space, which Rust trims. */
  predicate IsSpace(c: char) {
    || '\t' <= c <= '\r'
    || c == ' '
    || c == '\U{85}'
    || c == '\U{A0}'
    || c == '\U{1680}'
    || '\U{2000}' <= c <= '\U{200A}'
    || c == '\U{2028}'
    || c == '\U{2029}'
    || c == '\U{202F}'
    || c == '\U{205F}'
    || c == '\U{3000}'
  }

  function TrimEnd(s: string): string {
    if s != "" && IsSpace(s[|s| - 1]) then TrimEnd(s[..|s| - 1]) else s
  }

  function TrimStart(s: string): string {
    if s != "" && IsSpace(s[0]) then TrimStart(s[1..]) else s
  }

  function Trim(s: string): string {
    TrimStart(TrimEnd(s))
  }

  /** `s.trim().is_empty()`. */
  predicate IsBlank(s: string) {
    forall i | 0 <= i < |s| :: IsSpace(s[i])
  }

  lemma {:induction false} TrimStartOfBlank(s: string)
    ensures TrimStart(s) == "" <==> IsBlank(s)
  {
    if s != "" && IsSpace(s[0]) {
      TrimStartOfBlank(s[1..]);
      assert IsBlank(s) <==> IsBlank(s[1..]) by {
        if IsBlank(s[1..]) {
          forall i | 0 <= i < |s| ensures IsSpace(s[i]) {
            if i > 0 { assert s[i] == s[1..][i - 1]; }
          }
        }
      }
    }
  }

  lemma {:induction false} TrimEndOfBlank(s: string)
    ensures IsBlank(TrimEnd(s)) <==> IsBlank(s)
  {
    if s != "" && IsSpace(s[|s| - 1]) {
      TrimEndOfBlank(s[..|s| - 1]);
      assert IsBlank(s) <==> IsBlank(s[..|s| - 1]) by {
        if IsBlank(s[..|s| - 1]) {
          forall i | 0 <= i < |s| ensures IsSpace(s[i]) {
            if i < |s| - 1 { assert s[i] == s[..|s| - 1][i]; }
          }
        }
      }
    }
  }

  /** A string is blank exactly when trimming both ends leaves nothing. */
  lemma BlankIsTrimmedEmpty(s: string)
    ensures Trim(s) == "" <==> IsBlank(s)
  {
    TrimEndOfBlank(s);
    TrimStartOfBlank(TrimEnd(s));
  }

  /** `t` is `s` without its trailing white space. */
  ghost predicate WithoutTail(s: string, t: string) {
    && t <= s
    && (forall i | |t| <= i < |s| :: IsSpace(s[i]))
    && (t == "" || !IsSpace(t[|t| - 1]))
  }

  lemma {:induction false} TrimEndDropsTheTail(s: string, t: string)
    ensures TrimEnd(s) == t <==> WithoutTail(s, t)
  {
    var n := |s| - 1;
    if s != "" && IsSpace(s[n]) {
      TrimEndDropsTheTail(s[..n], t);
      if WithoutTail(s[..n], t) {
        forall i | |t| <= i < |s| ensures IsSpace(s[i]) {
          if i < n { assert s[i] == s[..n][i]; }
        }
      }
    } else if WithoutTail(s, t) {
      assert |t| == |s|;
    }
  }

  /** Two strings trim to the same exactly when they differ in white space at the end alone. */
  lemma SameButForTheTail(s: string, t: string)
    ensures TrimEnd(s) == TrimEnd(t) <==>
      exists common: string, a: string, b: string :: SplitsInto(s, common, a) && SplitsInto(t, common, b)
  {
    TrimEndDropsTheTail(s, TrimEnd(s));
    TrimEndDropsTheTail(t, TrimEnd(t));
    if TrimEnd(s) == TrimEnd(t) {
      var common := TrimEnd(s);
      assert SplitsInto(s, common, s[|common|..]) && SplitsInto(t, common, t[|common|..]);
    }
    if common: string, a: string, b: string :| SplitsInto(s, common, a) && SplitsInto(t, common, b) {
      BlankTailsAreTrimmed(common, a);
      BlankTailsAreTrimmed(common, b);
    }
  }

  /** `s` is `head` and white space behind it. */
  ghost predicate SplitsInto(s: string, head: string, blank: string) {
    s == head + blank && IsBlank(blank)
  }

  lemma BlankTailsAreTrimmed(s: string, blank: string)
    requires IsBlank(blank)
    ensures TrimEnd(s + blank) == TrimEnd(s)
  {
    var t := TrimEnd(s);
    TrimEndDropsTheTail(s, t);
    forall i | |t| <= i < |s + blank| ensures IsSpace((s + blank)[i]) {
      if i < |s| { assert (s + blank)[i] == s[i]; } else { assert (s + blank)[i] == blank[i - |s|]; }
    }
    assert t <= s + blank;
    TrimEndDropsTheTail(s + blank, t);
  }

  lemma {:induction false} TrimStartDropsTheHead(s: string) returns (a: string)
    ensures s == a + TrimStart(s) && IsBlank(a)
    ensures TrimStart(s) == "" || !IsSpace(TrimStart(s)[0])
  {
    if s != "" && IsSpace(s[0]) {
      var rest := TrimStartDropsTheHead(s[1..]);
      a := [s[0]] + rest;
    } else {
      a := "";
    }
  }

  /** Trimming drops white space from both ends, all of it, and nothing else. */
  lemma TrimDropsTheEnds(s: string) returns (a: string, b: string)
    ensures s == a + Trim(s) + b && IsBlank(a) && IsBlank(b)
    ensures Trim(s) == "" || (!IsSpace(Trim(s)[0]) && !IsSpace(Trim(s)[|Trim(s)| - 1]))
  {
    var t := TrimEnd(s);
    TrimEndDropsTheTail(s, t);
    a := TrimStartDropsTheHead(t);
    b := s[|t|..];
  }

  // ---- Counting ----

  function One(b: bool): nat { if b then 1 else 0 }

  /** How often `x` occurs. */
  function Count(s: seq<nat>, x: nat): nat {
    if s == [] then 0 else One(s[0] == x) + Count(s[1..], x)
  }

  lemma {:induction false} CountConcat(a: seq<nat>, b: seq<nat>, x: nat)
    ensures Count(a + b, x) == Count(a, x) + Count(b, x)
  {
    if a == [] {
      assert a + b == b;
    } else {
      assert (a + b)[1..] == a[1..] + b;
      CountConcat(a[1..], b, x);
    }
  }

  lemma CountAppend(s: seq<nat>, added: nat, x: nat)
    ensures Count(s + [added], x) == Count(s, x) + One(added == x)
  {
    CountConcat(s, [added], x);
  }

  lemma {:induction false} CountIsMembership(s: seq<nat>, x: nat)
    ensures Count(s, x) > 0 <==> x in s
  {
    if s != [] { CountIsMembership(s[1..], x); }
  }
}
