/** Finding a display name nobody uses yet, by appending 2, 3, and so on. */
module Names {
  import opened ConfigModel
  import opened Text

  /** `%d` of a number that is not negative. */
  function Decimal(n: nat): (s: string)
    ensures |s| == 1 <==> n < 10
    ensures s != ""
  {
    var digit := ('0' as int + n % 10) as char;
    if n < 10 then [digit] else Decimal(n / 10) + [digit]
  }

  lemma {:induction false} DecimalInjective(a: nat, b: nat)
    requires Decimal(a) == Decimal(b)
    ensures a == b
  {
    var s := Decimal(a);
    assert s[|s| - 1] as int - '0' as int == a % 10 == b % 10;
    if a >= 10 && b >= 10 {
      assert Decimal(a / 10) == s[..|s| - 1] == Decimal(b / 10);
      DecimalInjective(a / 10, b / 10);
    }
  }

  /** Read back, the digits are the number. */
  lemma {:induction false} DecimalIsNumber(n: nat)
    ensures Number(Decimal(n)) == n
  {
    var s := Decimal(n);
    if n >= 10 {
      DecimalIsNumber(n / 10);
      assert s[..|s| - 1] == Decimal(n / 10);
    } else {
      assert s[..0] == "" && Number("") == 0;
    }
  }

  /** By stable ID, else by display name. */
  function FindByIdentifier(subs: seq<Subscription>, identifier: string): (i: int)
    ensures -1 <= i < |subs|
    ensures (exists s | s in subs :: s.id == identifier) ==> i >= 0 && subs[i].id == identifier
    ensures i >= 0 ==> subs[i].id == identifier || subs[i].name == identifier
    ensures i < 0 ==> forall s | s in subs :: s.id != identifier && s.name != identifier
  {
    var i := FindById(subs, identifier);
    if i >= 0 then i else FindByName(subs, identifier)
  }

  ghost function Identifiers(subs: seq<Subscription>): set<string>
  {
    (set s | s in subs :: s.id) + (set s | s in subs :: s.name)
  }

  /** The candidate of round `i`: the base itself, then the base and a number from 2 on. */
  function Candidate(base: string, i: nat): string
  {
    if i == 1 then base else base + Decimal(i)
  }

  lemma CandidatesDiffer(base: string, i: nat, j: nat)
    requires 1 <= i < j
    ensures Candidate(base, i) != Candidate(base, j)
  {
    assert Candidate(base, j)[|base|..] == Decimal(j);
    if i > 1 {
      assert Candidate(base, i)[|base|..] == Decimal(i);
      if Decimal(i) == Decimal(j) {
        DecimalInjective(i, j);
      }
    }
  }

  lemma CandidateMeans(base: string, i: nat)
    requires i >= 1
    ensures if i == 1 then Candidate(base, i) == base
            else exists digits :: Candidate(base, i) == base + digits && Number(digits) == i
  {
    DecimalIsNumber(i);
    if i > 1 {
      assert Candidate(base, i) == base + Decimal(i);
    }
  }

  /** What the name is built from: the one asked for, without the blanks around it, else one derived from the
      address. */
  function Base(requested: string, derived: string): string
  {
    if Trim(requested) == "" then derived else Trim(requested)
  }

  /** The first candidate that is neither an ID nor a name. The search ends because the candidates are
      all different and only finitely many strings are taken. */
  method UniqueSubscriptionName(requested: string, derived: string, subs: seq<Subscription>) returns (name: string)
    ensures name !in Identifiers(subs)
    ensures exists i :: 1 <= i && name == Candidate(Base(requested, derived), i)
                        && forall j | 1 <= j < i :: Candidate(Base(requested, derived), j) in Identifiers(subs)
    ensures var base := if Trim(requested) != "" then Trim(requested) else derived;
            || name == base
            || (base in Identifiers(subs) && exists digits :: name == base + digits && Number(digits) >= 2)
  {
    hide Candidate;
    var base := Trim(requested);
    if base == "" {
      base := derived;
    }
    assert base == Base(requested, derived);
    name := Candidate(base, 1);
    var i := 2;
    ghost var untried := Identifiers(subs);
    while FindByIdentifier(subs, name) >= 0
      invariant 2 <= i && name == Candidate(base, i - 1)
      invariant forall j | 1 <= j < i - 1 :: Candidate(base, j) in Identifiers(subs)
      invariant forall id | id in Identifiers(subs) && id !in untried :: exists j | 1 <= j < i - 1 :: id == Candidate(base, j)
      decreases untried
    {
      assert name in Identifiers(subs);
      forall j | 1 <= j < i - 1
        ensures Candidate(base, j) != name
      {
        CandidatesDiffer(base, j, i - 1);
      }
      assert name in untried;
      untried := untried - {name};
      name := Candidate(base, i);
      i := i + 1;
    }
    assert 1 <= i - 1 && name == Candidate(Base(requested, derived), i - 1);
    CandidateMeans(base, i - 1);
    CandidateMeans(base, 1);
  }
}
