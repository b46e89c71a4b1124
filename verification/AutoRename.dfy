/** Finding a free name for a new node by appending " (1)", " (2)", and so on. */
module AutoRename {
  import opened GoText
  import opened NodeNames
  import opened Wrappers

  datatype Sibling = Sibling(name: string, ext: string, file: bool)

  datatype Policy = KeepOrFail | Rename | Replace

  const MAX_ATTEMPTS := 10000

  /** normalizeNodeNameConflictPolicy */
  function NormalizePolicy(raw: string): Option<Policy> {
    var policy := ToLower(TrimSpace(raw));
    if policy in {"", "error"} then Some(KeepOrFail)
    else if policy in {"auto_rename", "auto-rename", "autorename"} then Some(Rename)
    else if policy == "replace" then Some(Replace)
    else None
  }

  // ----- the candidates -----

  predicate IsDigit(c: char) {
    '0' <= c <= '9'
  }

  function Digit(n: nat): char
    requires n < 10
    ensures IsDigit(Digit(n))
  {
    ('0' as int + n) as char
  }

  /** %d of a natural number. */
  function Decimal(n: nat): (s: string)
    ensures s != "" && forall c <- s :: IsDigit(c)
  {
    if n < 10 then [Digit(n)] else Decimal(n / 10) + [Digit(n % 10)]
  }

  lemma {:induction false} DecimalIsInjective(m: nat, n: nat)
    requires Decimal(m) == Decimal(n)
    ensures m == n
    decreases m
  {
    var (a, b) := (Decimal(m), Decimal(n));
    assert a[|a| - 1] == b[|b| - 1] && a[..|a| - 1] == b[..|b| - 1];
    assert m >= 10 ==> a[..|a| - 1] == Decimal(m / 10);
    assert n >= 10 ==> b[..|b| - 1] == Decimal(n / 10);
    if m >= 10 && n >= 10 {
      DecimalIsInjective(m / 10, n / 10);
    }
  }

  function Suffix(i: nat): string {
    " (" + Decimal(i) + ")"
  }

  /** truncateNodeNameForSuffix */
  function TruncatedFor(name: string, suffix: string): string {
    var available := MAX_NAME_LENGTH - |suffix|;
    if available <= 0 then "" else if |name| <= available then name else name[..available]
  }

  function Candidate(name: string, i: nat): string {
    TruncatedFor(name, Suffix(i)) + Suffix(i)
  }

  lemma {:induction false} DecimalLength(n: nat, digits: nat)
    requires 1 <= digits && n < Power10(digits)
    ensures |Decimal(n)| <= digits
    decreases digits
  {
    if n >= 10 {
      assert Power10(digits) == 10 * Power10(digits - 1);
      assert digits > 1 by { assert Power10(1) == 10 * Power10(0) == 10; }
      DecimalLength(n / 10, digits - 1);
    }
  }

  function Power10(n: nat): nat {
    if n == 0 then 1 else 10 * Power10(n - 1)
  }

  /** A candidate has at most 255 code points, and its cut-off part leaves room for the suffix. */
  lemma CandidateLength(name: string, i: nat)
    requires 1 <= i <= MAX_ATTEMPTS
    ensures |Candidate(name, i)| <= MAX_NAME_LENGTH && |Suffix(i)| <= 8
  {
    assert Power10(5) == 100000 by {
      assert Power10(1) == 10 && Power10(2) == 100 && Power10(3) == 1000 && Power10(4) == 10000;
    }
    DecimalLength(i, 5);
  }

  // ----- candidates are all different -----

  predicate EndsWith(s: string, tail: string) {
    |s| >= |tail| && s[|s| - |tail|..] == tail
  }

  lemma TrimRightKeeps(s: string)
    requires s != "" && !IsSpace(s[|s| - 1])
    ensures TrimRight(s) == s
  {
  }

  lemma TrimLeftKeepsTail(s: string, tail: string)
    requires EndsWith(s, tail) && tail != "" && !IsSpace(tail[0])
    ensures EndsWith(TrimLeft(s), tail)
  {
    var left := TrimLeft(s);
    assert s[|s| - |tail|] == tail[0];
    hide IsSpace, TrimLeft;
    assert |left| >= |tail|;
  }

  lemma TrimKeepsTail(s: string, tail: string)
    requires EndsWith(s, tail) && tail != "" && !IsSpace(tail[0]) && !IsSpace(tail[|tail| - 1])
    ensures EndsWith(TrimSpace(s), tail)
  {
    TrimLeftKeepsTail(s, tail);
    var left := TrimLeft(s);
    assert left[|left| - 1] == tail[|tail| - 1];
    TrimRightKeeps(left);
  }

  function Number(i: nat): (s: string) {
    "(" + Decimal(i) + ")"
  }

  lemma BracketPlace(s: string, d: string)
    requires EndsWith(s, "(" + d + ")")
    ensures |s| >= |d| + 2 && s[|s| - |d| - 2] == '('
  {
    assert s[|s| - |d| - 2..][0] == '(';
  }

  lemma DigitPlace(s: string, e: string, j: nat)
    requires (forall c <- e :: IsDigit(c)) && EndsWith(s, "(" + e + ")") && |s| - |e| - 2 < j < |s| - 1
    ensures IsDigit(s[j])
  {
    var k := j - (|s| - |e| - 2);
    assert s[|s| - |e| - 2..][k] == s[j] && ("(" + e + ")")[k] == e[k - 1];
    assert e[k - 1] in e;
  }

  lemma NumberIsNotLonger(s: string, d: string, e: string)
    requires (forall c <- e :: IsDigit(c)) && EndsWith(s, "(" + d + ")") && EndsWith(s, "(" + e + ")")
    ensures |e| <= |d|
  {
    BracketPlace(s, d);
    var j := |s| - |d| - 2;
    if |s| - |e| - 2 < j {
      DigitPlace(s, e, j);
    }
  }

  /** The number after the last bracket can be read back. */
  lemma NumberIsReadable(s: string, d: string, e: string)
    requires (forall c <- d :: IsDigit(c)) && (forall c <- e :: IsDigit(c))
    requires EndsWith(s, "(" + d + ")") && EndsWith(s, "(" + e + ")")
    ensures d == e
  {
    NumberIsNotLonger(s, d, e);
    NumberIsNotLonger(s, e, d);
    assert ("(" + d + ")")[1..|d| + 1] == d && ("(" + e + ")")[1..|e| + 1] == e;
  }

  lemma CandidatesDiffer(name: string, ext: string, file: bool, i: nat, j: nat)
    requires VisibleName(Candidate(name, i), ext, file) == VisibleName(Candidate(name, j), ext, file)
    ensures i == j
  {
    var (a, b) := (TrimSpace(Candidate(name, i)), TrimSpace(Candidate(name, j)));
    hide Candidate, TrimSpace, NormalizeExt;
    assert a == b by {
      if file && NormalizeExt(ext) != "" {
        var tail := "." + NormalizeExt(ext);
        assert a + "." + NormalizeExt(ext) == a + tail && b + "." + NormalizeExt(ext) == b + tail;
        assert (a + tail)[..|a|] == a && (b + tail)[..|b|] == b;
      }
    }
    CandidateShowsNumber(name, i);
    CandidateShowsNumber(name, j);
    NumberIsReadable(a, Decimal(i), Decimal(j));
    DecimalIsInjective(i, j);
  }

  /** Trimming a candidate keeps the bracketed number at its end. */
  lemma CandidateShowsNumber(name: string, i: nat)
    ensures EndsWith(TrimSpace(Candidate(name, i)), Number(i))
  {
    var (s, number) := (Candidate(name, i), Number(i));
    assert s == TruncatedFor(name, Suffix(i)) + [' '] + number;
    assert !IsSpace('(') && !IsSpace(')');
    hide IsSpace, TruncatedFor, Decimal;
    TrimKeepsTail(s, number);
  }

  /** The visible names of the first n candidates. */
  function Candidates(name: string, ext: string, file: bool, n: nat): set<string> {
    if n == 0 then {} else Candidates(name, ext, file, n - 1) + {VisibleName(Candidate(name, n), ext, file)}
  }

  lemma {:induction false} CandidatesAreMany(name: string, ext: string, file: bool, n: nat)
    ensures |Candidates(name, ext, file, n)| == n
    ensures forall s <- Candidates(name, ext, file, n) :: exists i ::
            1 <= i <= n && s == VisibleName(Candidate(name, i), ext, file)
  {
    hide VisibleName, Candidate;
    if n > 0 {
      CandidatesAreMany(name, ext, file, n - 1);
      var shown := VisibleName(Candidate(name, n), ext, file);
      if shown in Candidates(name, ext, file, n - 1) {
        var i :| 1 <= i <= n - 1 && shown == VisibleName(Candidate(name, i), ext, file);
        CandidatesDiffer(name, ext, file, i, n);
      }
    }
  }

  // ----- the code -----

  function ShownNames(siblings: seq<Sibling>): set<string> {
    set s | s in siblings :: VisibleName(s.name, s.ext, s.file)
  }

  lemma {:induction false} ShownNamesSize(siblings: seq<Sibling>)
    ensures |ShownNames(siblings)| <= |siblings|
  {
    hide VisibleName;
    if siblings != [] {
      var (init, last) := (siblings[..|siblings| - 1], siblings[|siblings| - 1]);
      ShownNamesSize(init);
      assert forall s :: s in siblings <==> s in init || s == last;
      assert ShownNames(siblings) == ShownNames(init) + {VisibleName(last.name, last.ext, last.file)};
    }
  }

  lemma {:induction false} AllCandidatesTaken(name: string, ext: string, file: bool, taken: set<string>, n: nat)
    requires forall i | 1 <= i <= n :: VisibleName(Candidate(name, i), ext, file) in taken
    ensures Candidates(name, ext, file, n) <= taken
  {
    hide VisibleName, Candidate;
    if n > 0 {
      AllCandidatesTaken(name, ext, file, taken, n - 1);
    }
  }

  /** With every candidate taken there are at least 10000 siblings. */
  lemma NeedsManySiblings(name: string, ext: string, file: bool, siblings: seq<Sibling>)
    requires forall i | 1 <= i <= MAX_ATTEMPTS :: VisibleName(Candidate(name, i), ext, file) in ShownNames(siblings)
    ensures |siblings| >= MAX_ATTEMPTS
  {
    hide VisibleName, Candidate;
    AllCandidatesTaken(name, ext, file, ShownNames(siblings), MAX_ATTEMPTS);
    CandidatesAreMany(name, ext, file, MAX_ATTEMPTS);
    ShownNamesSize(siblings);
    SubsetSize(Candidates(name, ext, file, MAX_ATTEMPTS), ShownNames(siblings));
  }

  lemma {:induction false} SubsetSize<T>(a: set<T>, b: set<T>)
    requires a <= b
    ensures |a| <= |b|
    decreases a
  {
    if a != {} {
      var x :| x in a;
      SubsetSize(a - {x}, b - {x});
    }
  }

  /** resolveAutoRenamedNodeName: the name itself when nobody shows it, else the first free candidate. */
  method ResolveAutoRenamedNodeName(name: string, ext: string, file: bool, siblings: seq<Sibling>)
        returns (r: Option<string>)
    ensures r.Some? ==> VisibleName(r.value, ext, file) !in ShownNames(siblings)
    ensures VisibleName(name, ext, file) !in ShownNames(siblings) ==> r == Some(name)
    ensures r.Some? && VisibleName(name, ext, file) in ShownNames(siblings) ==>
              |r.value| <= MAX_NAME_LENGTH &&
              exists i | 1 <= i <= MAX_ATTEMPTS :: r.value == Candidate(name, i) &&
                forall j | 1 <= j < i :: VisibleName(Candidate(name, j), ext, file) in ShownNames(siblings)
    ensures |siblings| < MAX_ATTEMPTS ==> r.Some?
  {
    hide VisibleName, Candidate;
    var existing: set<string> := {};
    for n := 0 to |siblings|
      invariant existing == ShownNames(siblings[..n])
    {
      assert siblings[..n + 1] == siblings[..n] + [siblings[n]];
      ShownNext(siblings[..n], siblings[n]);
      existing := existing + {VisibleName(siblings[n].name, siblings[n].ext, siblings[n].file)};
    }
    assert siblings[..|siblings|] == siblings;
    if VisibleName(name, ext, file) !in existing {
      return Some(name);
    }
    for index := 1 to MAX_ATTEMPTS + 1
      invariant forall j | 1 <= j < index :: VisibleName(Candidate(name, j), ext, file) in existing
    {
      var candidate := Candidate(name, index);
      if VisibleName(candidate, ext, file) !in existing {
        CandidateLength(name, index);
        return Some(candidate);
      }
    }
    NeedsManySiblings(name, ext, file, siblings);
    r := None;
  }

  lemma ShownNext(siblings: seq<Sibling>, s: Sibling)
    ensures ShownNames(siblings + [s]) == ShownNames(siblings) + {VisibleName(s.name, s.ext, s.file)}
  {
    hide VisibleName;
    assert forall t :: t in siblings + [s] <==> t in siblings || t == s;
  }

  datatype Resolved = Refused | Taken | Name(name: string)

  /** resolveCreateNodeName: "error" keeps the name as it is; "replace" picks a free name like "auto_rename". */
  method ResolveCreateNodeName(name: string, ext: string, file: bool, siblings: seq<Sibling>, policy: string)
        returns (r: Resolved)
    ensures r.Refused? <==> NormalizePolicy(policy).None?
    ensures NormalizePolicy(policy) == Some(KeepOrFail) ==> r == Name(name)
    ensures r.Name? && NormalizePolicy(policy) != Some(KeepOrFail)
            ==> VisibleName(r.name, ext, file) !in ShownNames(siblings)
    ensures r.Taken? ==> |siblings| >= MAX_ATTEMPTS
  {
    hide VisibleName, Candidate, NormalizePolicy;
    var normalized := NormalizePolicy(policy);
    if normalized.None? {
      return Refused;
    }
    if normalized.value.KeepOrFail? {
      return Name(name);
    }
    var resolved := ResolveAutoRenamedNodeName(name, ext, file, siblings);
    r := if resolved.Some? then Name(resolved.value) else Taken;
  }
}
