/** Names of child scans: parent name, a dash and the Unix time, within the length of a DNS label. */
module ChildNames {

  const LABEL_MAX_LENGTH: nat := 63
  const INT64_MIN: int := -0x8000_0000_0000_0000
  const INT64_MAX: int := 0x7FFF_FFFF_FFFF_FFFF

  predicate Int64(t: int) { INT64_MIN <= t <= INT64_MAX }

  function Digit(d: nat): char
    requires d < 10
  {
    '0' + d as char
  }

  function Digits(n: nat): (s: string)
    ensures |s| > 0
    ensures forall i :: 0 <= i < |s| ==> '0' <= s[i] <= '9'
  {
    if n < 10 then [Digit(n)] else Digits(n / 10) + [Digit(n % 10)]
  }

  /** Decimal notation, with a sign for negative numbers. */
  function Decimal(t: int): string {
    if t < 0 then "-" + Digits(-t) else Digits(t)
  }

  function Suffix(t: int): string { "-" + Decimal(t) }

  function ParentBound(t: int): int { LABEL_MAX_LENGTH - |Suffix(t)| }

  lemma {:induction false} DigitsLength(n: nat, k: nat, bound: nat)
    requires k > 0 && n < bound && bound == PowerOfTen(k)
    ensures |Digits(n)| <= k
    decreases k
  {
    if n >= 10 {
      DigitsLength(n / 10, k - 1, PowerOfTen(k - 1));
    }
  }

  function PowerOfTen(k: nat): nat { if k == 0 then 1 else 10 * PowerOfTen(k - 1) }

  /** The part of a name that is left for the parent is never shorter than 42 characters. */
  lemma ParentBoundIsPositive(t: int)
    requires Int64(t)
    ensures 42 <= ParentBound(t) < LABEL_MAX_LENGTH
  {
    assert PowerOfTen(19) == 10_000_000_000_000_000_000 by {
      assert PowerOfTen(5) == 100_000;
      assert PowerOfTen(10) == 10_000_000_000;
      assert PowerOfTen(15) == 1_000_000_000_000_000;
    }
    DigitsLength(if t < 0 then -t else t, 19, PowerOfTen(19));
  }

  function ChildName(parent: string, t: int): (name: string)
    requires Int64(t)
    ensures |name| <= LABEL_MAX_LENGTH
  {
    ParentBoundIsPositive(t);
    var bound := ParentBound(t);
    (if |parent| > bound then parent[..bound] else parent) + Suffix(t)
  }

  // ---------------------------------------------------------------- reading a name back

  /** The number written by a string of digits. */
  function Number(s: string): nat
    requires forall i :: 0 <= i < |s| ==> '0' <= s[i] <= '9'
  {
    if s == "" then 0 else 10 * Number(s[..|s| - 1]) + (s[|s| - 1] - '0') as nat
  }

  lemma {:induction false} NumberOfDigits(n: nat)
    ensures Number(Digits(n)) == n
  {
    var s := Digits(n);
    if n >= 10 {
      NumberOfDigits(n / 10);
      assert s[..|s| - 1] == Digits(n / 10);
    } else {
      assert s[..|s| - 1] == "";
    }
  }

  /** Decimal notation is canonical: no zero comes first, except in zero itself. */
  lemma {:induction false} NoLeadingZero(n: nat)
    ensures Digits(n)[0] == '0' ==> n == 0 && Digits(n) == "0"
  {
    if n >= 10 { NoLeadingZero(n / 10); }
  }

  /** The part of a string after its last dash. */
  function AfterLastDash(s: string): string {
    if s == "" || s[|s| - 1] == '-' then "" else AfterLastDash(s[..|s| - 1]) + [s[|s| - 1]]
  }

  lemma {:induction false} AfterLastDashOf(prefix: string, rest: string)
    requires '-' !in rest
    ensures AfterLastDash(prefix + "-" + rest) == rest
  {
    var s := prefix + "-" + rest;
    if rest != "" {
      var init := rest[..|rest| - 1];
      assert s[..|s| - 1] == prefix + "-" + init;
      AfterLastDashOf(prefix, init);
      assert rest == init + [rest[|rest| - 1]];
    }
  }

  lemma ChildNameHasPrefix(parent: string, t: int) returns (prefix: string)
    requires Int64(t) && t >= 0
    ensures ChildName(parent, t) == prefix + "-" + Digits(t)
  {
    ParentBoundIsPositive(t);
    var bound := ParentBound(t);
    prefix := if |parent| > bound then parent[..bound] else parent;
    assert ChildName(parent, t) == prefix + ("-" + Digits(t));
  }

  lemma NoDashInDigits(n: nat)
    ensures '-' !in Digits(n)
  {
  }

  /** The start time can be read back from the name of a scan that was started after 1970. */
  lemma ChildNameEndsInTime(parent: string, t: int)
    requires Int64(t) && t >= 0
    ensures AfterLastDash(ChildName(parent, t)) == Digits(t)
    ensures Number(Digits(t)) == t
  {
    var prefix := ChildNameHasPrefix(parent, t);
    NoDashInDigits(t);
    AfterLastDashOf(prefix, Digits(t));
    NumberOfDigits(t);
  }

  lemma ChildNameIsInjective(parent: string, t: int, u: int)
    requires Int64(t) && t >= 0 && Int64(u) && u >= 0
    requires ChildName(parent, t) == ChildName(parent, u)
    ensures t == u
  {
    ChildNameEndsInTime(parent, t);
    ChildNameEndsInTime(parent, u);
  }

  // ---------------------------------------------------------------- valid names

  predicate Alphanumeric(c: char) { 'a' <= c <= 'z' || '0' <= c <= '9' }

  /** One dot-free label of a Kubernetes object name. */
  predicate IsLabel(s: string) {
    && s != ""
    && (forall i :: 0 <= i < |s| ==> Alphanumeric(s[i]) || s[i] == '-')
    && Alphanumeric(s[0]) && Alphanumeric(s[|s| - 1])
  }

  function FirstDot(s: string): (d: nat)
    ensures d <= |s| && '.' !in s[..d]
    ensures d < |s| ==> s[d] == '.'
  {
    if s == "" || s[0] == '.' then 0
    else
      var d := 1 + FirstDot(s[1..]);
      assert s[..d] == [s[0]] + s[1..][..d - 1];
      d
  }

  /** Labels separated by single dots: the object names that the API server accepts, up to
      their length. */
  predicate IsSubdomain(s: string)
    decreases |s|
  {
    var d := FirstDot(s);
    IsLabel(s[..d]) && (d < |s| ==> IsSubdomain(s[d + 1..]))
  }

  /** Whether two neighbouring characters can occur in a name. */
  predicate Joins(a: char, b: char) {
    && (Alphanumeric(a) || a == '-' || a == '.') && (Alphanumeric(b) || b == '-' || b == '.')
    && (a == '.' ==> Alphanumeric(b)) && (b == '.' ==> Alphanumeric(a))
  }

  predicate JoinsAt(s: string, i: nat)
    requires i + 1 < |s|
  {
    Joins(s[i], s[i + 1])
  }

  ghost predicate Joined(s: string) {
    forall i :: 0 <= i < |s| - 1 ==> JoinsAt(s, i)
  }

  lemma JoinedConcat(a: string, b: string)
    requires a != "" && b != ""
    ensures Joined(a + b) <==> Joined(a) && Joined(b) && Joins(a[|a| - 1], b[0])
  {
    var s := a + b;
    assert JoinsAt(s, |a| - 1) == Joins(a[|a| - 1], b[0]);
    assert forall i :: 0 <= i < |a| - 1 ==> JoinsAt(a, i) == JoinsAt(s, i);
    if Joined(s) {
      forall i | 0 <= i < |b| - 1 ensures JoinsAt(b, i) { assert JoinsAt(s, |a| + i); }
    } else if Joined(a) && Joined(b) {
      forall i | |a| <= i < |s| - 1 ensures JoinsAt(s, i) { assert JoinsAt(b, i - |a|); }
    }
  }

  lemma LabelIsJoined(s: string)
    requires '.' !in s
    ensures IsLabel(s) <==> Joined("." + s + ".")
  {
    var p := "." + s + ".";
    assert forall i :: 0 <= i < |s| ==> p[i + 1] == s[i];
    if IsLabel(s) {
      forall i | 0 <= i < |p| - 1 ensures JoinsAt(p, i) { }
    } else if Joined(p) {
      assert JoinsAt(p, 0) && JoinsAt(p, |s|);
      forall i | 0 <= i < |s| ensures Alphanumeric(s[i]) || s[i] == '-' {
        assert JoinsAt(p, i + 1) && s[i] != '.';
      }
      assert false;
    }
  }

  /** Valid names, one pair of neighbours at a time. */
  lemma {:induction false} SubdomainIsJoined(s: string)
    ensures IsSubdomain(s) <==> Joined("." + s + ".")
    decreases |s|
  {
    var d := FirstDot(s);
    LabelIsJoined(s[..d]);
    if d == |s| {
      assert s[..d] == s;
    } else {
      var rest := s[d + 1..];
      SubdomainIsJoined(rest);
      JoinedConcat("." + s[..d], ".");
      JoinedConcat("." + s[..d], "." + rest + ".");
      assert "." + s + "." == ("." + s[..d]) + ("." + rest + ".");
    }
  }

  /** Truncation can cut the parent's name just behind a dot. */
  predicate CutBehindDot(parent: string, t: int)
    requires Int64(t)
  {
    ParentBoundIsPositive(t);
    |parent| > ParentBound(t) && parent[ParentBound(t) - 1] == '.'
  }

  lemma SuffixCharacters(t: int)
    requires Int64(t)
    ensures var x := Suffix(t);
            && |x| >= 2 && x[0] == '-' && Alphanumeric(x[|x| - 1])
            && forall i :: 0 <= i < |x| ==> Alphanumeric(x[i]) || x[i] == '-'
    ensures Joined(Suffix(t) + ".")
  {
  }

  /** How much of the parent's name a child name keeps. */
  function Kept(parent: string, t: int): (n: nat)
    requires Int64(t)
    ensures n <= |parent| && (parent != "" ==> n > 0)
  {
    ParentBoundIsPositive(t);
    if |parent| > ParentBound(t) then ParentBound(t) else |parent|
  }

  lemma ChildNameKeeps(parent: string, t: int)
    requires Int64(t)
    ensures ChildName(parent, t) == parent[..Kept(parent, t)] + Suffix(t)
  {
    assert parent[..|parent|] == parent;
  }

  /** A child's name is the suffix behind as much of the parent's name as fits into 63 characters,
      and that is all of it for parents of up to 42 characters. */
  lemma ChildNameKeepsParent(parent: string, t: int)
    requires Int64(t)
    ensures var name, x := ChildName(parent, t), Suffix(t);
            && |name| == (if |parent| + |x| > 63 then 63 else |parent| + |x|)
            && |x| <= |name| && name[..|name| - |x|] <= parent && name[|name| - |x|..] == x
    ensures |parent| <= 42 ==> ChildName(parent, t) == parent + Suffix(t)
  {
    ParentBoundIsPositive(t);
    ChildNameKeeps(parent, t);
    assert parent[..|parent|] == parent;
  }

  lemma SameSuffix(a: string, b: string, suffix: string)
    ensures a + suffix == b + suffix <==> a == b
  {
    if a + suffix == b + suffix {
      assert a == (a + suffix)[..|a + suffix| - |suffix|] && b == (b + suffix)[..|b + suffix| - |suffix|];
    }
  }

  lemma KeptIsPrefix(parent: string, t: int)
    requires Int64(t)
    ensures var room := 63 - |Suffix(t)|;
            room >= 42 && parent[..Kept(parent, t)] == if |parent| >= room then parent[..room] else parent
  {
    ParentBoundIsPositive(t);
    assert parent[..|parent|] == parent;
  }

  /** Two parents collide at one time exactly if they are the same up to the truncation. */
  lemma ParentsCollideIff(p: string, q: string, t: int)
    requires Int64(t)
    ensures var room := 63 - |Suffix(t)|;
            && room >= 42
            && (ChildName(p, t) == ChildName(q, t) <==>
                  p == q || (|p| >= room && |q| >= room && p[..room] == q[..room]))
  {
    ChildNameKeeps(p, t);
    ChildNameKeeps(q, t);
    SameSuffix(p[..Kept(p, t)], q[..Kept(q, t)], Suffix(t));
    KeptIsPrefix(p, t);
    KeptIsPrefix(q, t);
  }

  /** What can be put in front of a suffix: a valid name, up to a trailing dash. */
  lemma PrefixedSuffix(prefix: string, suffix: string)
    requires prefix != "" && suffix != "" && suffix[0] == '-' && Joined(suffix + ".")
    ensures Joined("." + (prefix + suffix) + ".") <==> Joined("." + prefix) && prefix[|prefix| - 1] != '.'
  {
    assert "." + (prefix + suffix) + "." == ("." + prefix) + (suffix + ".");
    JoinedConcat("." + prefix, suffix + ".");
    if Joined("." + prefix) { assert JoinsAt("." + prefix, |prefix| - 1); }
  }

  /** The beginnings of a valid name are valid, up to their last characters. */
  lemma PrefixIsJoined(s: string, n: nat)
    requires Joined("." + s + ".") && n <= |s|
    ensures Joined("." + s[..n])
    ensures n == |s| > 0 ==> s[n - 1] != '.'
  {
    var p := "." + s + ".";
    forall i | 0 <= i < n ensures JoinsAt("." + s[..n], i) { assert JoinsAt(p, i); }
    assert JoinsAt(p, |s|);
  }

  lemma CutNameIsJoined(s: string, n: nat, suffix: string)
    requires Joined("." + s + ".") && 0 < n <= |s|
    requires suffix != "" && suffix[0] == '-' && Joined(suffix + ".")
    ensures Joined("." + (s[..n] + suffix) + ".") <==> n == |s| || s[n - 1] != '.'
  {
    PrefixIsJoined(s, n);
    PrefixedSuffix(s[..n], suffix);
  }

  lemma CutNameIsValidIff(s: string, n: nat, suffix: string)
    requires IsSubdomain(s) && 0 < n <= |s|
    requires suffix != "" && suffix[0] == '-' && Joined(suffix + ".")
    ensures IsSubdomain(s[..n] + suffix) <==> n == |s| || s[n - 1] != '.'
  {
    SubdomainIsJoined(s);
    SubdomainIsJoined(s[..n] + suffix);
    CutNameIsJoined(s, n, suffix);
  }

  lemma SuffixFits(t: int)
    requires Int64(t)
    ensures Suffix(t) != "" && Suffix(t)[0] == '-' && Joined(Suffix(t) + ".")
  {
    SuffixCharacters(t);
  }

  lemma CutBehindDotIff(parent: string, t: int)
    requires Int64(t) && parent != ""
    ensures CutBehindDot(parent, t) <==> Kept(parent, t) < |parent| && parent[Kept(parent, t) - 1] == '.'
  {
  }

  /** A valid parent name gives a valid child name exactly when it is not cut behind a dot. */
  lemma ChildNameIsValidIff(parent: string, t: int)
    requires Int64(t) && IsSubdomain(parent)
    ensures IsSubdomain(ChildName(parent, t)) <==> !CutBehindDot(parent, t)
  {
    ChildNameKeeps(parent, t);
    CutBehindDotIff(parent, t);
    SuffixFits(t);
    CutNameIsValidIff(parent, Kept(parent, t), Suffix(t));
  }

  /** Whether the API server accepts a child for this parent: its name must be valid, and so must
      its labels, one of which has the parent's name as its value. */
  predicate CanHaveChild(parent: string, t: int)
    requires Int64(t)
  {
    |parent| <= LABEL_MAX_LENGTH && IsSubdomain(ChildName(parent, t))
  }

  /** For a valid parent name: it must fit into a label value and not be cut behind a dot. */
  lemma CanHaveChildIff(parent: string, t: int)
    requires Int64(t) && IsSubdomain(parent)
    ensures CanHaveChild(parent, t) <==> |parent| <= LABEL_MAX_LENGTH && !CutBehindDot(parent, t)
  {
    ChildNameIsValidIff(parent, t);
  }

  lemma LabelWithSuffix(name: string, n: nat, suffix: string)
    requires IsLabel(name) && 0 < n <= |name|
    requires suffix != "" && Alphanumeric(suffix[|suffix| - 1])
    requires forall i :: 0 <= i < |suffix| ==> Alphanumeric(suffix[i]) || suffix[i] == '-'
    ensures IsLabel(name[..n] + suffix)
  {
    var s := name[..n] + suffix;
    assert s[0] == name[0] && s[|s| - 1] == suffix[|suffix| - 1];
  }

  /** A parent whose name is a single label always gets children whose names are single labels. */
  lemma LabelParentGivesLabelChild(parent: string, t: int)
    requires Int64(t) && IsLabel(parent)
    ensures IsLabel(ChildName(parent, t)) && !CutBehindDot(parent, t)
    ensures ChildName(parent, t)[0] == parent[0]
  {
    ChildNameKeeps(parent, t);
    SuffixCharacters(t);
    LabelWithSuffix(parent, Kept(parent, t), Suffix(t));
  }

  /** A parent name of 53 characters with a dot in the 52nd place loses every run: from
      September 2001 to November 2286 its children's names are invalid. */
  lemma DottedParentNeverStarts(a: string, b: string, t: int)
    requires |a| == 51 && IsLabel(a) && IsLabel(b)
    requires 1_000_000_000 <= t < 10_000_000_000
    ensures IsSubdomain(a + "." + b)
    ensures !IsSubdomain(ChildName(a + "." + b, t))
  {
    var parent := a + "." + b;
    assert FirstDot(parent) == 51 && parent[..51] == a && parent[52..] == b by {
      assert forall i :: 0 <= i < 51 ==> parent[i] == a[i] && parent[i] != '.';
      assert parent[51] == '.';
      assert FirstDot(parent) == 51;
    }
    assert IsSubdomain(b) by { LabelHasNoDot(b); }
    TenDigits(t);
    assert CutBehindDot(parent, t);
    ChildNameIsValidIff(parent, t);
  }

  lemma LabelHasNoDot(s: string)
    requires IsLabel(s)
    ensures IsSubdomain(s)
  {
  }

  lemma LabelParentCanHaveChild(parent: string, t: int)
    requires Int64(t) && IsLabel(parent) && |parent| <= LABEL_MAX_LENGTH
    ensures CanHaveChild(parent, t)
  {
    LabelParentGivesLabelChild(parent, t);
    LabelHasNoDot(ChildName(parent, t));
  }

  lemma TenDigits(t: nat)
    requires 1_000_000_000 <= t < 10_000_000_000
    ensures |Digits(t)| == 10
  {
    DigitsLengthAtLeast(t, 9);
    assert PowerOfTen(5) == 100_000;
    assert PowerOfTen(10) == 10_000_000_000;
    DigitsLength(t, 10, PowerOfTen(10));
  }

  lemma {:induction false} DigitsLengthAtLeast(n: nat, k: nat)
    requires n >= PowerOfTen(k)
    ensures |Digits(n)| > k
  {
    if k > 0 { DigitsLengthAtLeast(n / 10, k - 1); }
  }
}
