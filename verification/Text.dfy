/** Optional values and the text operations shared by the components. */
module Text {

  datatype Option<+T> = None | Some(value: T)

  /** The characters Go's unicode.IsSpace accepts. */
  predicate IsSpace(c: char) {
    || '\t' <= c <= '\r' || c == ' '
    || c == '\U{0085}' || c == '\U{00A0}' || c == '\U{1680}'
    || '\U{2000}' <= c <= '\U{200A}'
    || c == '\U{2028}' || c == '\U{2029}' || c == '\U{202F}' || c == '\U{205F}' || c == '\U{3000}'
  }

  /** The only character SQL's one-argument btrim strips. */
  predicate IsBlank(c: char) { c == ' ' }

  function Trim(s: string, cut: char -> bool): string {
    if s == "" then ""
    else if cut(s[0]) then Trim(s[1..], cut)
    else if cut(s[|s| - 1]) then Trim(s[..|s| - 1], cut)
    else s
  }

  /** Go's strings.TrimSpace. */
  function TrimSpace(s: string): string { Trim(s, IsSpace) }

  /** SQL's btrim(s). */
  function BTrim(s: string): string { Trim(s, IsBlank) }

  /** Lower-casing, one character at a time. */
  function Lower(lower: char -> char, s: string): string {
    seq(|s|, i requires 0 <= i < |s| => lower(s[i]))
  }

  /** Case mapping never turns white space into something else, or back. */
  ghost predicate KeepsSpaces(lower: char -> char) {
    forall c :: IsSpace(lower(c)) <==> IsSpace(c)
  }

  predicate OccursAt(s: string, part: string, i: int) {
    0 <= i <= |s| - |part| && s[i..i + |part|] == part
  }

  predicate Contains(s: string, part: string) {
    exists i :: 0 <= i <= |s| - |part| && OccursAt(s, part, i)
  }

  predicate HasSuffix(s: string, suffix: string) {
    |suffix| <= |s| && s[|s| - |suffix|..] == suffix
  }

  /** strings.TrimSuffix(s, "/"). */
  function DropSlash(s: string): string {
    if HasSuffix(s, "/") then s[..|s| - 1] else s
  }

  function Join(parts: seq<string>, sep: string): string {
    if parts == [] then "" else if |parts| == 1 then parts[0] else parts[0] + sep + Join(parts[1..], sep)
  }

  /** Neither end of s would be cut. */
  predicate Bare(s: string, cut: char -> bool) {
    s != "" ==> !cut(s[0]) && !cut(s[|s| - 1])
  }

  lemma {:induction false} TrimIsBare(s: string, cut: char -> bool)
    ensures Bare(Trim(s, cut), cut)
    ensures Bare(s, cut) ==> Trim(s, cut) == s
    ensures |Trim(s, cut)| <= |s|
  {
    if s != "" {
      if cut(s[0]) {
        TrimIsBare(s[1..], cut);
      } else if cut(s[|s| - 1]) {
        TrimIsBare(s[..|s| - 1], cut);
      }
    }
  }

  /** Trimming keeps one slice; all around it is cut, and at its ends nothing is left to cut. */
  lemma {:induction false} TrimKeepsTheMiddle(s: string, cut: char -> bool) returns (i: nat, j: nat)
    ensures i <= j <= |s| && Trim(s, cut) == s[i..j]
    ensures forall k :: 0 <= k < |s| && !(i <= k < j) ==> cut(s[k])
    ensures i < j ==> !cut(s[i]) && !cut(s[j - 1])
  {
    i, j := 0, |s|;
    if s != "" {
      if cut(s[0]) {
        i, j := TrimKeepsTheMiddle(s[1..], cut);
        assert s[1..][i..j] == s[i + 1..j + 1];
        i, j := i + 1, j + 1;
      } else if cut(s[|s| - 1]) {
        i, j := TrimKeepsTheMiddle(s[..|s| - 1], cut);
      }
    }
  }

  /** It does not matter which end is trimmed first. */
  lemma {:induction false} TrimDropsLast(s: string, cut: char -> bool)
    requires s != "" && cut(s[|s| - 1])
    ensures Trim(s, cut) == Trim(s[..|s| - 1], cut)
  {
    if cut(s[0]) && |s| > 1 {
      TrimDropsLast(s[1..], cut);
      assert s[1..][..|s| - 2] == s[..|s| - 1][1..];
    }
  }

  /** Trimming less before trimming more changes nothing. */
  lemma {:induction false} TrimTwice(s: string, less: char -> bool, more: char -> bool)
    requires forall c :: less(c) ==> more(c)
    ensures Trim(Trim(s, less), more) == Trim(s, more)
  {
    if s != "" {
      if less(s[0]) {
        TrimTwice(s[1..], less, more);
      } else if less(s[|s| - 1]) {
        TrimTwice(s[..|s| - 1], less, more);
        TrimDropsLast(s, more);
      }
    }
  }

  /** Text that btrim leaves with clean ends is what TrimSpace would have left. */
  lemma BareBTrimIsTrimSpace(s: string)
    requires Bare(BTrim(s), IsSpace)
    ensures BTrim(s) == TrimSpace(s)
  {
    TrimTwice(s, IsBlank, IsSpace);
    TrimIsBare(BTrim(s), IsSpace);
  }

  lemma BTrimOfTrimSpace(s: string)
    ensures BTrim(TrimSpace(s)) == TrimSpace(s) == TrimSpace(TrimSpace(s))
  {
    TrimIsBare(s, IsSpace);
    TrimIsBare(TrimSpace(s), IsBlank);
    TrimIsBare(TrimSpace(s), IsSpace);
  }
}
