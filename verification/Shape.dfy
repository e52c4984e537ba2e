/** From admitted pod counts to what is launched: the world size, computed in three places, and the replica count. */
module Shape {
  import opened Foundation

  type Counts = map<string, int>

  // ---- 32-bit sums over a map ----

  const MODULUS: int := 0x1_0000_0000

  /** Go's int32 arithmetic. */
  function Wrap(x: int): (r: int)
    ensures -0x8000_0000 <= r <= 0x7fff_ffff
    ensures -0x8000_0000 <= x <= 0x7fff_ffff ==> r == x
  {
    (x + 0x8000_0000) % MODULUS - 0x8000_0000
  }

  lemma WrapAdds(x: int, y: int)
    ensures Wrap(Wrap(x) + y) == Wrap(x + y)
  {
    var q := (x + 0x8000_0000) / MODULUS;
    assert Wrap(x) == x - q * MODULUS;
    SameResidue(x + y + 0x8000_0000, q);
  }

  lemma SameResidue(a: int, q: int)
    ensures (a - q * MODULUS) % MODULUS == a % MODULUS
  {
  }

  ghost function Total(m: Counts, keys: set<string>): int
    requires keys <= m.Keys
    decreases |keys|
  {
    if keys == {} then 0 else
      var k :| k in keys;
      m[k] + Total(m, keys - {k})
  }

  /** The total does not depend on which key is taken first. */
  lemma {:induction false} TotalTakes(m: Counts, keys: set<string>, k: string)
    requires keys <= m.Keys && k in keys
    ensures Total(m, keys) == m[k] + Total(m, keys - {k})
    decreases |keys|
  {
    var first :| first in keys && Total(m, keys) == m[first] + Total(m, keys - {first});
    if first != k {
      TotalTakes(m, keys - {first}, k);
      TotalTakes(m, keys - {k}, first);
      assert keys - {first} - {k} == keys - {k} - {first};
    }
  }

  lemma {:induction false} TotalIsNatural(m: Counts, keys: set<string>)
    requires keys <= m.Keys && forall k :: k in keys ==> m[k] >= 0
    ensures Total(m, keys) >= 0
    decreases |keys|
  {
    if keys != {} {
      var k :| k in keys;
      TotalTakes(m, keys, k);
      TotalIsNatural(m, keys - {k});
    }
  }

  /** totalAdmittedCount: whatever the order of the range over the map, the wrapped running sum ends at the same value. */
  method TotalAdmittedCount(counts: Counts) returns (total: int)
    ensures total == Wrap(Total(counts, counts.Keys))
  {
    total := 0;
    var rest := counts.Keys;
    while rest != {}
      invariant rest <= counts.Keys
      invariant total == Wrap(Total(counts, counts.Keys) - Total(counts, rest))
      decreases |rest|
    {
      var k :| k in rest;
      TotalTakes(counts, rest, k);
      WrapAdds(Total(counts, counts.Keys) - Total(counts, rest), counts[k]);
      total := Wrap(total + counts[k]);
      rest := rest - {k};
    }
  }

  // ---- World size ----

  ghost function Sum32(counts: Counts): int {
    Wrap(Total(counts, counts.Keys))
  }

  ghost function WorldSize(total: int, identity: int): int {
    if total > 0 then total else identity
  }

  /** computeEffectiveWorldSize, for the containers' environment. */
  method EffectiveWorldSize(counts: Option<Counts>, identity: int) returns (size: int)
    ensures size == WorldSize(if counts.Some? then Sum32(counts.value) else 0, identity)
    ensures counts.Some? && Sum32(counts.value) > 0 ==> size == Sum32(counts.value)
    ensures counts.None? || Sum32(counts.value) <= 0 ==> size == identity
  {
    if counts.Some? && counts.value != map[] {
      var total := TotalAdmittedCount(counts.value);
      if total > 0 { return total; }
    } else if counts.Some? {
      assert counts.value.Keys == {};
    }
    return identity;
  }

  /** admittedWorldSize, for the resume request. */
  method AdmittedWorldSize(counts: Option<Counts>, identity: int) returns (size: int)
    ensures size == WorldSize(if counts.Some? then Sum32(counts.value) else 0, identity)
    ensures counts.Some? && Sum32(counts.value) > 0 ==> size == Sum32(counts.value)
    ensures counts.None? || Sum32(counts.value) <= 0 ==> size == identity
  {
    if counts.Some? {
      var total := TotalAdmittedCount(counts.value);
      if total > 0 { return total; }
    }
    return identity;
  }

  ghost function PlanSize(total: int, identity: int): int {
    if total != 0 then total else identity
  }

  /** buildLaunchPlan, which tests for zero only. */
  method PlanWorldSize(counts: Option<Counts>, identity: int) returns (size: int)
    ensures size == PlanSize(if counts.Some? then Sum32(counts.value) else 0, identity)
    ensures counts.Some? && Sum32(counts.value) != 0 ==> size == Sum32(counts.value)
    ensures counts.None? || Sum32(counts.value) == 0 ==> size == identity
  {
    size := 0;
    if counts.Some? { size := TotalAdmittedCount(counts.value); }
    if size == 0 { size := identity; }
  }

  /** The three world sizes agree on every map of non-negative counts whose total fits, and more exactly unless the
      32-bit total comes out negative. */
  lemma WorldSizesAgree(counts: Counts, identity: int)
    ensures WorldSize(Sum32(counts), identity) == PlanSize(Sum32(counts), identity) <==>
            Sum32(counts) >= 0 || Sum32(counts) == identity
    ensures (forall k :: k in counts ==> counts[k] >= 0) && Total(counts, counts.Keys) <= 0x7fff_ffff ==>
            WorldSize(Sum32(counts), identity) == PlanSize(Sum32(counts), identity)
  {
    if forall k :: k in counts ==> counts[k] >= 0 {
      TotalIsNatural(counts, counts.Keys);
    }
  }

  // ---- Replicas ----

  /** The template fields that decide how many pods a replicated job has; unset ones default. */
  class ReplicatedJob {
    var replicas: Option<int>
    const parallelism: Option<int>
    const completions: Option<int>

    /** podsPerReplica and podsCountPerReplica: the least of parallelism and completions. */
    function PerReplica(): (n: int)
      ensures n <= (if parallelism.Some? then parallelism.value else 1)
      ensures completions.Some? ==> n <= completions.value
      ensures n == (if parallelism.Some? then parallelism.value else 1) || completions == Some(n)
    {
      var p := if parallelism.Some? then parallelism.value else 1;
      var c := if completions.Some? then completions.value else p;
      if c < p then c else p
    }

    function Replicas(): int
      reads this
    {
      if replicas.Some? then replicas.value else 1
    }

    /** podsCount, where it does not overflow. */
    function Pods(): int
      reads this
    {
      Replicas() * PerReplica()
    }

    method ApplyAdmittedReplicaCount(admitted: int)
      modifies this`replicas
      ensures admitted <= 0 ==> replicas == old(replicas)
      ensures admitted > 0 && PerReplica() >= 1 ==>
        && Replicas() >= 1
        && (Pods() <= admitted <==> admitted >= PerReplica())
        && admitted - PerReplica() < Pods()
      ensures admitted > 0 && PerReplica() < 1 ==> Replicas() == admitted
      ensures admitted > 0 && PerReplica() >= 1 && old(Replicas()) >= 1 && admitted == old(Pods()) ==>
        Replicas() == old(Replicas())
    {
      if admitted <= 0 { return; }
      var per := PerReplica();
      if per <= 0 { per := 1; }
      var count := admitted / per;
      Quotient(admitted, per);
      if old(Replicas()) >= 1 && PerReplica() >= 1 && admitted == old(Pods()) { ExactQuotient(old(Replicas()), per); }
      if count < 1 { count := 1; }
      replicas := Some(count);
    }
  }

  lemma Multiples(k: int, b: int)
    requires b >= 1
    ensures k >= 1 ==> k * b >= b
    ensures k <= 0 ==> k * b <= 0
    ensures k <= -1 ==> k * b <= -b
  {
  }

  lemma Quotient(a: int, b: int)
    requires a > 0 && b >= 1
    ensures a - b < a / b * b <= a
    ensures a / b >= 1 <==> a >= b
    ensures b == 1 ==> a / b == a
  {
    assert a == a / b * b + a % b;
    Multiples(a / b, b);
  }

  lemma ExactQuotient(q: int, b: int)
    requires b >= 1
    ensures q * b / b == q
  {
    var a := q * b;
    var d := a / b;
    assert a == d * b + a % b;
    assert (q - d) * b == q * b - d * b;
    Multiples(q - d, b);
  }
}
