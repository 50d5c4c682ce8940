/** Renaming the repeated column names of a flattened batch. */
module NameCollisions {
  import A = Arrow

  function Digit(d: nat): (c: char)
    requires d < 10
    ensures c != '_'
  {
    "0123456789"[d]
  }

  /** The decimal representation, without leading zeros. */
  function Decimal(n: nat): (s: string)
    ensures s != []
  {
    if n < 10 then [Digit(n)] else Decimal(n / 10) + [Digit(n % 10)]
  }

  predicate IsDigit(c: char) {
    '0' <= c <= '9'
  }

  /** The number a string of digits stands for. */
  function NumberOf(s: string): int {
    if s == [] then 0 else 10 * NumberOf(s[..|s| - 1]) + (s[|s| - 1] as int - '0' as int)
  }

  lemma {:induction false} DigitReads(d: nat)
    requires d < 10
    ensures IsDigit(Digit(d)) && Digit(d) as int == '0' as int + d
  {
  }

  /** Decimals are digits, stand for their number, and have no leading zero. */
  lemma {:induction false} DecimalReads(n: nat)
    ensures forall c | c in Decimal(n) :: IsDigit(c)
    ensures NumberOf(Decimal(n)) == n
    ensures n > 0 ==> Decimal(n)[0] != '0'
  {
    DigitReads(n % 10);
    var s := Decimal(n);
    if n < 10 {
      assert s[..0] == [];
    } else {
      DecimalReads(n / 10);
      assert s[..|s| - 1] == Decimal(n / 10);
    }
  }

  lemma {:induction false} DecimalHasNoUnderscore(n: nat)
    ensures '_' !in Decimal(n)
  {
    if n >= 10 {
      DecimalHasNoUnderscore(n / 10);
    }
  }

  lemma {:induction false} DecimalInjective(m: nat, n: nat)
    requires Decimal(m) == Decimal(n)
    ensures m == n
  {
    var s, t := Decimal(m), Decimal(n);
    assert s[|s| - 1] == Digit(m % 10) && t[|t| - 1] == Digit(n % 10);
    if m >= 10 && n >= 10 {
      assert s[..|s| - 1] == Decimal(m / 10) && t[..|t| - 1] == Decimal(n / 10);
      DecimalInjective(m / 10, n / 10);
    }
  }

  function Count(names: seq<string>, x: string): nat {
    if names == [] then 0
    else Count(names[..|names| - 1], x) + if names[|names| - 1] == x then 1 else 0
  }

  function Generated(name: string, k: nat): string {
    name + "_" + Decimal(k)
  }

  /** The name of field i: its own, unless fields of that name come before; then with their number. */
  function NewName(names: seq<string>, i: nat): string
    requires i < |names|
  {
    var k := Count(names[..i], names[i]);
    if k == 0 then names[i] else Generated(names[i], k)
  }

  function Resolved(names: seq<string>): seq<string>
  {
    seq(|names|, i requires 0 <= i < |names| => NewName(names, i))
  }

  // ---------------------------------------------------------------- the loops

  function Names(fields: seq<A.ArrowField>): seq<string>
  {
    seq(|fields|, i requires 0 <= i < |fields| => fields[i].name)
  }

  function Renamed(fields: seq<A.ArrowField>): seq<A.ArrowField>
  {
    seq(|fields|, i requires 0 <= i < |fields| => A.ArrowField(NewName(Names(fields), i), fields[i].ty))
  }

  function Entry(m: map<string, nat>, x: string): nat {
    if x in m then m[x] else 0
  }

  ghost predicate Counts(m: map<string, nat>, names: seq<string>) {
    forall x :: Entry(m, x) == Count(names, x)
  }

  lemma {:induction false} CountOneMore(names: seq<string>, i: nat, x: string)
    requires i < |names|
    ensures Count(names[..i + 1], x) == Count(names[..i], x) + if names[i] == x then 1 else 0
  {
    assert names[..i + 1][..i] == names[..i];
  }

  lemma {:induction false} CountGrows(names: seq<string>, i: nat, j: nat, x: string)
    requires i <= j <= |names|
    ensures Count(names[..i], x) <= Count(names[..j], x)
  {
    if i < j {
      CountGrows(names, i, j - 1, x);
      CountOneMore(names, j - 1, x);
    }
  }

  method CountNames(fields: array<A.ArrowField>) returns (counts: map<string, nat>)
    ensures Counts(counts, Names(fields[..]))
  {
    counts := map[];
    ghost var names := Names(fields[..]);
    for i := 0 to fields.Length
      invariant Counts(counts, names[..i])
    {
      var name := fields[i].name;
      ghost var before := counts;
      counts := counts[name := Entry(counts, name) + 1];
      forall x ensures Entry(counts, x) == Count(names[..i + 1], x) {
        assert Entry(before, x) == Count(names[..i], x);
        CountOneMore(names, i, x);
      }
    }
    assert names[..fields.Length] == names;
  }

  /** A field is renamed when its name occurs more than once and this is not the first time. */
  lemma {:induction false} SeenDecides(names: seq<string>, counts: map<string, nat>, i: nat)
    requires Counts(counts, names) && i < |names|
    ensures Count(names[..i], names[i]) > 0 ==> Entry(counts, names[i]) > 1
  {
    CountOneMore(names, i, names[i]);
    CountGrows(names, i + 1, |names|, names[i]);
    assert names[..|names|] == names;
  }

  ghost predicate Seen(seen: map<string, nat>, counts: map<string, nat>, names: seq<string>) {
    forall x :: Entry(counts, x) > 1 ==> Entry(seen, x) == Count(names, x)
  }

  lemma {:induction false} SeenOneMore(seen: map<string, nat>, counts: map<string, nat>, names: seq<string>, i: nat)
    requires Counts(counts, names) && i < |names| && Seen(seen, counts, names[..i])
    ensures Entry(counts, names[i]) > 1 ==> (
              && Entry(seen, names[i]) == Count(names[..i], names[i])
              && Seen(seen[names[i] := Entry(seen, names[i]) + 1], counts, names[..i + 1]))
    ensures Entry(counts, names[i]) <= 1 ==> Count(names[..i], names[i]) == 0 && Seen(seen, counts, names[..i + 1])
  {
    SeenDecides(names, counts, i);
    forall x ensures Count(names[..i + 1], x) == Count(names[..i], x) + if names[i] == x then 1 else 0 {
      CountOneMore(names, i, x);
    }
  }

  /** One turn of the loop: renames field i if its name was seen before. */
  method VisitField(fields: array<A.ArrowField>, i: nat, counts: map<string, nat>, seen: map<string, nat>,
                    ghost names: seq<string>)
    returns (next: map<string, nat>)
    requires i < fields.Length == |names| && fields[i].name == names[i]
    requires Counts(counts, names) && Seen(seen, counts, names[..i])
    modifies fields
    ensures Seen(next, counts, names[..i + 1])
    ensures fields[i] == A.ArrowField(NewName(names, i), old(fields[i].ty))
    ensures forall k | 0 <= k < fields.Length && k != i :: fields[k] == old(fields[k])
  {
    var name := fields[i].name;
    SeenOneMore(seen, counts, names, i);
    if Entry(counts, name) <= 1 {
      return seen;
    }
    var idx := Entry(seen, name);
    if idx > 0 {
      fields[i] := A.ArrowField(name + "_" + Decimal(idx), fields[i].ty);
    }
    return seen[name := idx + 1];
  }

  /** `resolve_name_collisions`, in place: types and order stay, and each repeated field gets the number
      of earlier fields of its name as a suffix. */
  method ResolveNameCollisions(fields: array<A.ArrowField>)
    modifies fields
    ensures fields[..] == Renamed(old(fields[..]))
  {
    ghost var before := fields[..];
    ghost var names, after := Names(before), Renamed(before);
    var counts := CountNames(fields);
    var seen: map<string, nat> := map[];
    for i := 0 to fields.Length
      invariant Seen(seen, counts, names[..i])
      invariant forall k | 0 <= k < i :: fields[k] == after[k]
      invariant forall k | i <= k < fields.Length :: fields[k] == before[k]
    {
      seen := VisitField(fields, i, counts, seen, names);
    }
  }

  // ---------------------------------------------------------------- distinctness

  predicate Distinct(names: seq<string>) {
    forall i, j | 0 <= i < j < |names| :: names[i] != names[j]
  }

  predicate IsFirst(names: seq<string>, i: nat) {
    i < |names| && Count(names[..i], names[i]) == 0
  }

  /** No original name happens to be a generated one. */
  predicate NoClash(names: seq<string>) {
    forall i, j | 0 <= i < |names| && 0 <= j < |names| && !IsFirst(names, j) :: names[i] != NewName(names, j)
  }

  lemma {:induction false} CountIsPositive(names: seq<string>, i: nat, x: string)
    requires i <= |names| && Count(names[..i], x) > 0
    ensures exists j :: 0 <= j < i && names[j] == x
  {
    CountOneMore(names, i - 1, x);
    if names[i - 1] != x {
      CountIsPositive(names, i - 1, x);
    }
  }

  lemma {:induction false} FirstOccurrence(names: seq<string>, i: nat)
    requires i < |names|
    ensures exists j :: 0 <= j <= i && names[j] == names[i] && IsFirst(names, j)
  {
    if !IsFirst(names, i) {
      CountIsPositive(names, i, names[i]);
      var j :| 0 <= j < i && names[j] == names[i];
      FirstOccurrence(names, j);
    }
  }

  lemma {:induction false} LaterCountsMore(names: seq<string>, i: nat, j: nat)
    requires i < j < |names| && names[i] == names[j]
    ensures Count(names[..i], names[i]) < Count(names[..j], names[j])
  {
    CountOneMore(names, i, names[i]);
    CountGrows(names, i + 1, j, names[i]);
  }

  /** The suffix starts behind the last underscore, so name and number can be told apart. */
  lemma {:induction false} GeneratedInjective(a: string, m: nat, b: string, n: nat)
    requires Generated(a, m) == Generated(b, n)
    ensures a == b && m == n
  {
    DecimalHasNoUnderscore(m);
    DecimalHasNoUnderscore(n);
    var s := Generated(a, m);
    assert s[|a|] == '_' && s[|b|] == '_';
    assert forall k | |a| < k < |s| :: s[k] == Decimal(m)[k - |a| - 1];
    assert forall k | |b| < k < |s| :: s[k] == Decimal(n)[k - |b| - 1];
    assert |a| == |b|;
    assert s[..|a|] == a && s[..|b|] == b;
    assert s[|a| + 1..] == Decimal(m) && s[|b| + 1..] == Decimal(n);
    DecimalInjective(m, n);
  }

  lemma {:induction false} NewNamesDiffer(names: seq<string>, i: nat, j: nat)
    requires NoClash(names) && i < j < |names|
    ensures NewName(names, i) != NewName(names, j)
  {
    if !IsFirst(names, i) && !IsFirst(names, j) {
      if NewName(names, i) == NewName(names, j) {
        GeneratedInjective(names[i], Count(names[..i], names[i]), names[j], Count(names[..j], names[j]));
        LaterCountsMore(names, i, j);
      }
    } else if IsFirst(names, i) && IsFirst(names, j) {
      if names[i] == names[j] {
        LaterCountsMore(names, i, j);
      }
    }
  }

  /** The resulting names are pairwise distinct exactly when no original name is a generated one. */
  lemma {:induction false} DistinctIffNoClash(names: seq<string>)
    ensures Distinct(Resolved(names)) <==> NoClash(names)
  {
    if NoClash(names) {
      forall i, j | 0 <= i < j < |names| ensures Resolved(names)[i] != Resolved(names)[j] {
        NewNamesDiffer(names, i, j);
      }
    } else {
      var i, j :| 0 <= i < |names| && 0 <= j < |names| && !IsFirst(names, j) && names[i] == NewName(names, j);
      FirstOccurrence(names, i);
      var k :| 0 <= k <= i && names[k] == names[i] && IsFirst(names, k);
      assert Resolved(names)[k] == Resolved(names)[j] && k != j;
      if k < j {
        assert !Distinct(Resolved(names));
      } else {
        assert Resolved(names)[j] == Resolved(names)[k];
      }
    }
  }

  /** First occurrences keep their names. */
  lemma {:induction false} FirstsAreKept(names: seq<string>, i: nat)
    requires i < |names|
    ensures Resolved(names)[i] == names[i] <==> IsFirst(names, i)
  {
    if !IsFirst(names, i) {
      assert |Resolved(names)[i]| > |names[i]|;
    }
  }

  /** Two fields `a` and a field `a_1`: the second `a` is renamed to a name that is taken. */
  lemma {:induction false} RenamedOntoTakenName()
    ensures Resolved(["a", "a", "a_1"]) == ["a", "a_1", "a_1"]
    ensures !Distinct(Resolved(["a", "a", "a_1"]))
  {
    var names := ["a", "a", "a_1"];
    assert names[..1] == ["a"] && names[..2] == ["a", "a"];
    CountOneMore(names, 0, "a");
    CountOneMore(names, 0, "a_1");
    CountOneMore(names, 1, "a_1");
    assert NewName(names, 1) == Generated("a", 1) == "a" + "_" + "1";
    assert NewName(names, 2) == "a_1";
    assert Resolved(names)[1] == Resolved(names)[2];
  }
}
