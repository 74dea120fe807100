/**
 * The security-posture view: incidents per (threat actor, protection state) under the
 * actor and protection selections, each with its percentage among that actor's bars.
 */
module GraphActorProtection {
  import opened Wrappers
  import opened Ordering
  import opened Tables
  import opened DataHandler

  /** A (threat actor, protection state) group. */
  datatype ApKey = ApKey(actor: string, protection: string)

  /** One bar: its group, its incident count, and its share of the actor's incidents. */
  datatype Share = Share(actor: string, protection: string, count: nat, percentage: real)

  function ProtectionIn(selected: seq<string>): BaseRow -> bool {
    (row: BaseRow) => Allows(selected, Some(row.incident.protection))
  }

  /** The group of a row; a row without an actor belongs to none. */
  function ApKeyOf(row: BaseRow): Option<ApKey> {
    if row.incident.actor.Some? then Some(ApKey(row.incident.actor.value, row.incident.protection)) else None
  }

  function ActorOfKey(k: ApKey): string { k.actor }

  function ActorCell(row: BaseRow): Option<string> { row.incident.actor }

  /** Lines 3 to 7: the rows of the selected actors and protection states. */
  function Selected(df: seq<BaseRow>, selectedTa: seq<string>, selectedProt: seq<string>): seq<BaseRow> {
    Keep(Keep(df, ActorIn(selectedTa)), ProtectionIn(selectedProt))
  }

  /** Line 9: the group counts, adding up to the selected rows that have an actor. */
  function ApCounts(df: seq<BaseRow>, selectedTa: seq<string>, selectedProt: seq<string>): (t: seq<Bucket<ApKey>>)
    ensures Distinct(Keys(t)) && Positive(t)
    ensures Total(t) == CountKeyed(Selected(df, selectedTa, selectedProt), ApKeyOf)
  {
    GroupBy(Selected(df, selectedTa, selectedProt), ApKeyOf)
  }

  /** The sum of the counts of the actor's groups (`x.sum()` within the actor's group). */
  function ActorTotal(t: seq<Bucket<ApKey>>, a: string): nat {
    TotalWhere(t, Is(ActorOfKey, a))
  }

  /** A group's count divided by its actor's total, times 100, in exact arithmetic. */
  function Percentage(count: nat, total: nat): real
    requires total > 0
  {
    (count as real) / (total as real) * 100.0
  }

  /** Line 10 on the groups `t` of a table `whole`: each count over its actor's total, times 100. */
  function SharesOf(t: seq<Bucket<ApKey>>, whole: seq<Bucket<ApKey>>): (r: seq<Share>)
    requires forall i :: 0 <= i < |t| ==> ActorTotal(whole, t[i].key.actor) > 0
    ensures |r| == |t|
  {
    seq(|t|, i requires 0 <= i < |t| =>
      Share(t[i].key.actor, t[i].key.protection, t[i].count, Percentage(t[i].count, ActorTotal(whole, t[i].key.actor))))
  }

  /**
   * Line 10: every group with its percentage, which is positive and at most 100 because a
   * group is one of its actor's groups and counts at least one incident.
   */
  function Shares(t: seq<Bucket<ApKey>>): (r: seq<Share>)
    requires Positive(t)
    ensures |r| == |t|
    ensures forall i :: 0 <= i < |t| ==>
      r[i].actor == t[i].key.actor && r[i].protection == t[i].key.protection && r[i].count == t[i].count
    ensures forall i :: 0 <= i < |r| ==> 0.0 < r[i].percentage <= 100.0
    ensures forall i :: 0 <= i < |r| ==>
      ActorTotal(t, r[i].actor) > 0 && r[i].percentage == Percentage(r[i].count, ActorTotal(t, r[i].actor))
  {
    forall i | 0 <= i < |t| ensures t[i].count <= ActorTotal(t, t[i].key.actor) {
      CountBelowTotalWhere(t, i, Is(ActorOfKey, t[i].key.actor));
    }
    var r := SharesOf(t, t);
    forall i | 0 <= i < |r| ensures 0.0 < r[i].percentage <= 100.0 {
      PercentageBounds(t[i].count, ActorTotal(t, t[i].key.actor));
    }
    r
  }

  lemma PercentageBounds(c: nat, total: nat)
    requires 1 <= c <= total
    ensures 0.0 < Percentage(c, total) <= 100.0
  {
    var x := 100.0 / (total as real);
    assert x * (total as real) == 100.0;
    assert (c as real) * x <= (total as real) * x;
  }

  /**
   * `actor_protection` up to the drawing: one share per group of the selected records, its
   * percentage the group's count over the actor's total times 100, and the percentages of
   * every actor shown adding up to 100.
   */
  function ActorProtection(df: seq<BaseRow>, selectedTa: seq<string>, selectedProt: seq<string>): (r: seq<Share>)
    ensures var t := ApCounts(df, selectedTa, selectedProt);
      |r| == |t| &&
      forall i :: 0 <= i < |r| ==>
        r[i].actor == t[i].key.actor && r[i].protection == t[i].key.protection && r[i].count == t[i].count
    ensures forall i :: 0 <= i < |r| ==> 0.0 < r[i].percentage <= 100.0
    ensures forall i :: 0 <= i < |r| ==>
      var total := ActorTotal(ApCounts(df, selectedTa, selectedProt), r[i].actor);
      total > 0 && r[i].percentage == Percentage(r[i].count, total)
    ensures forall a :: (exists i :: 0 <= i < |r| && r[i].actor == a) ==> PercentOf(r, a) == 100.0
  {
    var t := ApCounts(df, selectedTa, selectedProt);
    var r := Shares(t);
    forall a | exists i :: 0 <= i < |r| && r[i].actor == a
      ensures PercentOf(r, a) == 100.0
    {
      var i :| 0 <= i < |r| && r[i].actor == a;
      assert t[i].key.actor == a;
      SharesSumTo100(t, a);
    }
    r
  }

  /** The sum of the percentages of the shares of actor `a`. */
  function PercentOf(r: seq<Share>, a: string): real {
    if r == [] then 0.0 else (if r[0].actor == a then r[0].percentage else 0.0) + PercentOf(r[1..], a)
  }

  /** The percentages of an actor's shares add up to the percentage of the actor's total. */
  lemma {:induction false} PercentOfShares(t: seq<Bucket<ApKey>>, whole: seq<Bucket<ApKey>>, a: string)
    requires forall i :: 0 <= i < |t| ==> ActorTotal(whole, t[i].key.actor) > 0
    requires ActorTotal(whole, a) > 0
    ensures PercentOf(SharesOf(t, whole), a) == Percentage(ActorTotal(t, a), ActorTotal(whole, a))
  {
    var total := ActorTotal(whole, a);
    if t == [] {
      PercentageZero(total);
    } else {
      var r := SharesOf(t, whole);
      PercentOfShares(t[1..], whole, a);
      SharesOfTail(t, whole);
      var c := if t[0].key.actor == a then t[0].count else 0;
      ActorTotalHead(t, a);
      if t[0].key.actor != a { PercentageZero(total); }
      assert PercentOf(r, a) == Percentage(c, total) + PercentOf(SharesOf(t[1..], whole), a);
      Distribute(c, ActorTotal(t[1..], a), total);
    }
  }

  lemma PercentageZero(total: nat)
    requires total > 0
    ensures Percentage(0, total) == 0.0
  {
  }

  lemma SharesOfTail(t: seq<Bucket<ApKey>>, whole: seq<Bucket<ApKey>>)
    requires t != []
    requires forall i :: 0 <= i < |t| ==> ActorTotal(whole, t[i].key.actor) > 0
    ensures forall i :: 0 <= i < |t[1..]| ==> ActorTotal(whole, t[1..][i].key.actor) > 0
    ensures SharesOf(t, whole)[1..] == SharesOf(t[1..], whole)
  {
    forall i | 0 <= i < |t[1..]| ensures ActorTotal(whole, t[1..][i].key.actor) > 0 {
      assert t[1..][i] == t[i + 1];
    }
    var r, rest := SharesOf(t, whole), SharesOf(t[1..], whole);
    forall j | 0 <= j < |rest| ensures r[1..][j] == rest[j] {
      assert t[1..][j] == t[j + 1];
    }
  }

  lemma ActorTotalHead(t: seq<Bucket<ApKey>>, a: string)
    requires t != []
    ensures ActorTotal(t, a) == (if t[0].key.actor == a then t[0].count else 0) + ActorTotal(t[1..], a)
  {
    assert Is(ActorOfKey, a)(t[0].key) == (t[0].key.actor == a);
  }

  lemma Distribute(c: nat, rest: nat, total: nat)
    requires total > 0
    ensures Percentage(c, total) + Percentage(rest, total) == Percentage(c + rest, total)
  {
  }

  /** The percentages of every actor shown add up to 100. */
  lemma SharesSumTo100(t: seq<Bucket<ApKey>>, a: string)
    requires Positive(t)
    requires exists i :: 0 <= i < |t| && t[i].key.actor == a
    ensures PercentOf(Shares(t), a) == 100.0
  {
    forall i | 0 <= i < |t| ensures t[i].count <= ActorTotal(t, t[i].key.actor) {
      CountBelowTotalWhere(t, i, Is(ActorOfKey, t[i].key.actor));
    }
    var i :| 0 <= i < |t| && t[i].key.actor == a;
    PercentOfShares(t, t, a);
    var total := ActorTotal(t, a) as real;
    assert total * (100.0 / total) == 100.0;
    assert Percentage(ActorTotal(t, a), ActorTotal(t, a)) == 100.0;
  }

  /** An actor's total counts the selected rows of that actor. */
  lemma ActorTotalCountsRows(df: seq<BaseRow>, selectedTa: seq<string>, selectedProt: seq<string>, a: string)
    ensures ActorTotal(ApCounts(df, selectedTa, selectedProt), a) == CountEq(Selected(df, selectedTa, selectedProt), ActorCell, Some(a))
  {
    var rows := Selected(df, selectedTa, selectedProt);
    GroupByTotalWhere(rows, ApKeyOf, Is(ActorOfKey, a));
    ActorRows(rows, a);
  }

  lemma {:induction false} ActorRows(rows: seq<BaseRow>, a: string)
    ensures CountKeyWhere(rows, ApKeyOf, Is(ActorOfKey, a)) == CountEq(rows, ActorCell, Some(a))
  {
    if rows != [] {
      ActorRows(rows[1..], a);
      var k := ApKeyOf(rows[0]);
      assert (k.Some? && Is(ActorOfKey, a)(k.value)) == (ActorCell(rows[0]) == Some(a));
    }
  }

  /** The selections only hide groups: a selected group keeps its count over the whole table. */
  lemma ApCountsSelected(df: seq<BaseRow>, selectedTa: seq<string>, selectedProt: seq<string>, k: ApKey)
    ensures Lookup(ApCounts(df, selectedTa, selectedProt), k)
         == if Allows(selectedTa, Some(k.actor)) && Allows(selectedProt, Some(k.protection))
            then CountKey(df, ApKeyOf, k) else 0
  {
    var byActor := Keep(df, ActorIn(selectedTa));
    CountKeyKeep(df, ApKeyOf, ActorIn(selectedTa), k, Allows(selectedTa, Some(k.actor)));
    CountKeyKeep(byActor, ApKeyOf, ProtectionIn(selectedProt), k, Allows(selectedProt, Some(k.protection)));
  }
}
