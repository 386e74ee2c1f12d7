/**
 * The email shape test of the waitlist form: the unanchored regular expression
 * `\S+@\S+\.\S+`. It is a loose shape check, not RFC 5322 address syntax.
 */
module EmailPattern {
  import opened Text

  /**
   * One match of the pattern occupying `s[i..j]`: a nonempty run of non-space
   * characters `s[i..at]`, the `@` at `at`, a nonempty run `s[at + 1..dot]`,
   * the `.` at `dot` and a nonempty run `s[dot + 1..j]`.
   */
  ghost predicate MatchAt(s: string, i: nat, at: nat, dot: nat, j: nat) {
    i < at && at + 1 < dot && dot + 1 < j <= |s|
    && s[at] == '@' && s[dot] == '.'
    && (forall k :: i <= k < at ==> !IsSpace(s[k]))
    && (forall k :: at + 1 <= k < dot ==> !IsSpace(s[k]))
    && (forall k :: dot + 1 <= k < j ==> !IsSpace(s[k]))
  }

  /** `/\S+@\S+\.\S+/.test(s)` in the regular expression's own terms: some substring matches. */
  ghost predicate MatchesEmailPattern(s: string) {
    exists i: nat, at: nat, dot: nat, j: nat :: MatchAt(s, i, at, dot, j)
  }

  /** `s[k..]` begins with `\S+\.\S`: non-space characters, then a dot, then a non-space character. */
  function DomainFrom(s: string, k: nat): bool
    decreases |s| - k
  {
    if k >= |s| || IsSpace(s[k]) then false
    else (k + 2 < |s| && s[k + 1] == '.' && !IsSpace(s[k + 2])) || DomainFrom(s, k + 1)
  }

  /** Some `@` at index `k` or later has a non-space character before it and `\S+\.\S` after it. */
  function AtFrom(s: string, k: nat): bool
    decreases |s| - k
  {
    if k >= |s| then false
    else (0 < k && s[k] == '@' && !IsSpace(s[k - 1]) && DomainFrom(s, k + 1)) || AtFrom(s, k + 1)
  }

  /** The email test as the form runs it: a scan for a suitable `@`. */
  function IsEmailShaped(s: string): (r: bool)
    ensures r <==> MatchesEmailPattern(s)
  {
    EmailShapeIff(s);
    AtFrom(s, 0)
  }

  /** A successful domain scan from `k` yields the dot that ends the run. */
  lemma {:induction false} DomainWitness(s: string, k: nat) returns (dot: nat)
    requires DomainFrom(s, k)
    ensures k < dot && dot + 1 < |s| && s[dot] == '.' && !IsSpace(s[dot + 1])
    ensures forall m :: k <= m < dot ==> !IsSpace(s[m])
    decreases |s| - k
  {
    if k + 2 < |s| && s[k + 1] == '.' && !IsSpace(s[k + 2]) {
      dot := k + 1;
    } else {
      dot := DomainWitness(s, k + 1);
    }
  }

  /** Any run of non-space characters from `k` up to a dot followed by a non-space makes the domain scan succeed. */
  lemma {:induction false} DomainComplete(s: string, k: nat, dot: nat)
    requires k < dot && dot + 1 < |s| && s[dot] == '.' && !IsSpace(s[dot + 1])
    requires forall m :: k <= m < dot ==> !IsSpace(s[m])
    ensures DomainFrom(s, k)
    decreases dot - k
  {
    if dot != k + 1 {
      DomainComplete(s, k + 1, dot);
    }
  }

  /** A successful `@` scan from `k` yields the `@` it found. */
  lemma {:induction false} AtWitness(s: string, k: nat) returns (at: nat)
    requires AtFrom(s, k)
    ensures k <= at < |s| && 0 < at && s[at] == '@' && !IsSpace(s[at - 1]) && DomainFrom(s, at + 1)
    decreases |s| - k
  {
    if 0 < k && s[k] == '@' && !IsSpace(s[k - 1]) && DomainFrom(s, k + 1) {
      at := k;
    } else {
      at := AtWitness(s, k + 1);
    }
  }

  /** A suitable `@` at index `at` makes the scan from any earlier `k` succeed. */
  lemma {:induction false} AtComplete(s: string, k: nat, at: nat)
    requires k <= at < |s| && 0 < at && s[at] == '@' && !IsSpace(s[at - 1]) && DomainFrom(s, at + 1)
    ensures AtFrom(s, k)
    decreases at - k
  {
    if at != k {
      AtComplete(s, k + 1, at);
    }
  }

  /** The scan agrees with the regular expression on every string. */
  lemma EmailShapeIff(s: string)
    ensures AtFrom(s, 0) <==> MatchesEmailPattern(s)
  {
    if AtFrom(s, 0) {
      var at := AtWitness(s, 0);
      var dot := DomainWitness(s, at + 1);
      assert MatchAt(s, at - 1, at, dot, dot + 2);
    }
    if MatchesEmailPattern(s) {
      var i: nat, at: nat, dot: nat, j: nat :| MatchAt(s, i, at, dot, j);
      DomainComplete(s, at + 1, dot);
      AtComplete(s, 0, at);
    }
  }

  /** A string that matches the pattern is not blank: the `@` is not white space. */
  lemma MatchImpliesNotBlank(s: string)
    ensures MatchesEmailPattern(s) ==> !Blank(s)
  {
  }
}
