/**
 * The two actor/technique views: the grouped bar chart of (threat actor, technique) pair
 * counts under the actor and technique selections, and the bipartite network of the ten
 * most frequent pairs, whose edges carry the pair counts.
 */
module GraphActor {
  import opened Wrappers
  import opened Ordering
  import opened Tables
  import opened DataHandler
  import opened Seqs

  /** A (threat actor, technique) pair. */
  datatype Pair = Pair(actor: string, technique: string)

  /** The group-by key of an exploded row; rows without an actor are dropped by the group-by. */
  function PairKey(row: ExplodedRow): Option<Pair> {
    if row.incident.actor.Some? then Some(Pair(row.incident.actor.value, row.technique)) else None
  }

  // ---------------------------------------------------------------------------
  // The main bar chart.

  function ActorFilter(selected: seq<string>): ExplodedRow -> bool {
    (row: ExplodedRow) => Allows(selected, row.incident.actor)
  }

  function TechniqueFilter(selected: seq<string>): ExplodedRow -> bool {
    (row: ExplodedRow) => Allows(selected, Some(row.technique))
  }

  /** Lines 9 to 13: the exploded rows of the selected actors and techniques. */
  function MainRows(exploded: seq<ExplodedRow>, selectedTa: seq<string>, selectedTech: seq<string>): seq<ExplodedRow> {
    Keep(Keep(exploded, ActorFilter(selectedTa)), TechniqueFilter(selectedTech))
  }

  /**
   * `create_main_bar`: the exploded table (the first argument is overwritten by a copy of
   * the second before use), filtered by the selected actors and techniques, counted by pair.
   * Every bar is a distinct pair, has a positive count, and passes both selections, and the
   * bars add up to the filtered rows that have an actor.
   */
  function MainBar(fDfExp: seq<ExplodedRow>, exploded: seq<ExplodedRow>, selectedTa: seq<string>,
                   selectedTech: seq<string>): (t: seq<Bucket<Pair>>)
    ensures Distinct(Keys(t)) && Positive(t)
    ensures forall p :: p in Keys(t) ==> Allows(selectedTa, Some(p.actor)) && Allows(selectedTech, Some(p.technique))
    ensures Total(t) == CountKeyed(MainRows(exploded, selectedTa, selectedTech), PairKey)
  {
    var rows := MainRows(exploded, selectedTa, selectedTech);
    var t := GroupBy(rows, PairKey);
    forall p | p in Keys(t)
      ensures Allows(selectedTa, Some(p.actor)) && Allows(selectedTech, Some(p.technique))
    {
      var i := CountKeyWitness(rows, PairKey, p);
      assert TechniqueFilter(selectedTech)(rows[i]);
      KeepMember(Keep(exploded, ActorFilter(selectedTa)), TechniqueFilter(selectedTech), rows[i]);
      KeepMember(exploded, ActorFilter(selectedTa), rows[i]);
    }
    t
  }

  /**
   * The selections only hide bars: a selected pair keeps its full count over the whole
   * exploded table, and an unselected pair has none.
   */
  lemma MainBarCounts(fDfExp: seq<ExplodedRow>, exploded: seq<ExplodedRow>, selectedTa: seq<string>,
                      selectedTech: seq<string>, p: Pair)
    ensures Lookup(MainBar(fDfExp, exploded, selectedTa, selectedTech), p)
         == if Allows(selectedTa, Some(p.actor)) && Allows(selectedTech, Some(p.technique))
            then CountKey(exploded, PairKey, p) else 0
  {
    var byActor := Keep(exploded, ActorFilter(selectedTa));
    var ca := Allows(selectedTa, Some(p.actor));
    var ct := Allows(selectedTech, Some(p.technique));
    CountKeyKeep(exploded, PairKey, ActorFilter(selectedTa), p, ca);
    CountKeyKeep(byActor, PairKey, TechniqueFilter(selectedTech), p, ct);
  }

  /** With nothing selected the bars are the plain pair counts of the exploded table. */
  lemma MainBarUnfiltered(fDfExp: seq<ExplodedRow>, exploded: seq<ExplodedRow>)
    ensures MainBar(fDfExp, exploded, [], []) == GroupBy(exploded, PairKey)
  {
    KeepAll(exploded, ActorFilter([]));
    KeepAll(exploded, TechniqueFilter([]));
  }

  // ---------------------------------------------------------------------------
  // The network graph.

  const UnknownActor := "Unknown (Threat Actor)"
  const UnknownTechnique := "Unknown (Technique Used)"

  /**
   * Line 27: the ten largest pair counts of the whole exploded table (every pair when there
   * are fewer), largest first; no pair left out occurs more often than a pair kept.
   */
  function TopPairs(exploded: seq<ExplodedRow>): (t: seq<Bucket<Pair>>)
    ensures |t| == Min(10, |GroupBy(exploded, PairKey)|)
    ensures |t| < 10 ==> forall p :: CountKey(exploded, PairKey, p) > 0 ==> p in Keys(t)
    ensures Distinct(Keys(t)) && Positive(t)
    ensures forall i :: 0 <= i < |t| ==> t[i].count == CountKey(exploded, PairKey, t[i].key)
    ensures forall i, j :: 0 <= i < j < |t| ==> t[i].count >= t[j].count
    ensures forall p :: CountKey(exploded, PairKey, p) > 0 && p !in Keys(t) ==>
              forall i :: 0 <= i < |t| ==> CountKey(exploded, PairKey, p) <= t[i].count
  {
    TopCounts(exploded, PairKey, 10)
  }

  function RelabelActor(a: string): string { if a == "Unknown" then UnknownActor else a }

  function RelabelTechnique(t: string): string { if t == "Unknown" then UnknownTechnique else t }

  function RelabelPair(p: Pair): Pair { Pair(RelabelActor(p.actor), RelabelTechnique(p.technique)) }

  /** Lines 29 to 32 on a whole table. */
  function Relabelled(t: seq<Bucket<Pair>>): (r: seq<Bucket<Pair>>)
    ensures |r| == |t|
    ensures forall i :: 0 <= i < |t| ==> r[i].count == t[i].count
  {
    seq(|t|, i requires 0 <= i < |t| => Bucket(RelabelPair(t[i].key), t[i].count))
  }

  /**
   * Lines 29 to 32: rename, in place, the actor "Unknown" and then the technique "Unknown"
   * so that the two do not become one node.
   */
  method RelabelUnknown(pairs: array<Bucket<Pair>>)
    modifies pairs
    ensures pairs[..] == Relabelled(old(pairs[..]))
  {
    var i := 0;
    while i < pairs.Length
      invariant 0 <= i <= pairs.Length
      invariant forall j :: 0 <= j < i ==>
        pairs[j] == old(pairs[j]).(key := old(pairs[j]).key.(actor := RelabelActor(old(pairs[j]).key.actor)))
      invariant forall j :: i <= j < pairs.Length ==> pairs[j] == old(pairs[j])
    {
      if pairs[i].key.actor == "Unknown" {
        pairs[i] := pairs[i].(key := pairs[i].key.(actor := UnknownActor));
      }
      i := i + 1;
    }
    i := 0;
    while i < pairs.Length
      invariant 0 <= i <= pairs.Length
      invariant forall j :: 0 <= j < i ==> pairs[j] == Relabelled(old(pairs[..]))[j]
      invariant forall j :: i <= j < pairs.Length ==>
        pairs[j] == old(pairs[j]).(key := old(pairs[j]).key.(actor := RelabelActor(old(pairs[j]).key.actor)))
    {
      if pairs[i].key.technique == "Unknown" {
        pairs[i] := pairs[i].(key := pairs[i].key.(technique := UnknownTechnique));
      }
      i := i + 1;
    }
  }

  /** Neither name of the pair is one of the two replacement names. */
  predicate NotRenamed(p: Pair) {
    p.actor != UnknownActor && p.technique != UnknownTechnique
  }

  /**
   * Relabelling keeps the pairs apart as long as no actor is already called
   * "Unknown (Threat Actor)" and no technique "Unknown (Technique Used)".
   */
  lemma RelabelledDistinct(t: seq<Bucket<Pair>>)
    requires Distinct(Keys(t))
    requires forall b :: b in t ==> NotRenamed(b.key)
    ensures Distinct(Keys(Relabelled(t)))
  {
    var ks := Keys(Relabelled(t));
    forall i, j | 0 <= i < j < |ks| ensures ks[i] != ks[j] {
      assert t[i] in t && t[j] in t;
      assert Keys(t)[i] != Keys(t)[j];
      RelabelPairInjective(t[i].key, t[j].key);
    }
  }

  /** Renaming "Unknown" to a name nobody else has loses no distinction. */
  lemma RelabelPairInjective(p: Pair, q: Pair)
    requires NotRenamed(p) && NotRenamed(q)
    ensures RelabelPair(p) == RelabelPair(q) ==> p == q
  {
    assert UnknownActor != "Unknown" by { assert |UnknownActor| != |"Unknown"|; }
    assert UnknownTechnique != "Unknown" by { assert |UnknownTechnique| != |"Unknown"|; }
  }

  /** The boolean mask of line 40 for one pair. */
  function HasKey(p: Pair): Bucket<Pair> -> bool { (b: Bucket<Pair>) => b.key == p }

  /** The number of rows of `t` whose key is `p`. */
  function KeyCount(t: seq<Bucket<Pair>>, p: Pair): nat {
    if t == [] then 0 else (if t[0].key == p then 1 else 0) + KeyCount(t[1..], p)
  }

  /** The mask selects one row per occurrence of the key; the first selected count is the lookup. */
  lemma {:induction false} MaskFacts(t: seq<Bucket<Pair>>, p: Pair)
    ensures |Keep(t, HasKey(p))| == KeyCount(t, p)
    ensures KeyCount(t, p) >= 1 ==> Keep(t, HasKey(p))[0].count == Lookup(t, p)
    ensures KeyCount(t, p) == 0 ==> Lookup(t, p) == 0
  {
    if t != [] {
      MaskFacts(t[1..], p);
      if t[0].key == p {
        assert Keep(t, HasKey(p)) == [t[0]] + Keep(t[1..], HasKey(p));
      } else {
        assert Keep(t, HasKey(p)) == Keep(t[1..], HasKey(p));
      }
    }
  }

  /** A key occurs in a table exactly when its count is positive. */
  lemma {:induction false} KeyCountPresent(t: seq<Bucket<Pair>>, p: Pair)
    ensures KeyCount(t, p) == 0 <==> p !in Keys(t)
  {
    if t != [] {
      KeyCountPresent(t[1..], p);
      KeysCons(t[0], t[1..]);
      HeadTail(t);
    }
  }

  /** A key occurs at most once in every table with distinct keys, and twice in every other. */
  lemma {:induction false} KeyCountDistinct(t: seq<Bucket<Pair>>)
    ensures Distinct(Keys(t)) <==> forall p :: KeyCount(t, p) <= 1
  {
    if Distinct(Keys(t)) {
      forall p ensures KeyCount(t, p) <= 1 { DistinctKeyCount(t, p); }
    } else {
      var i, j :| 0 <= i < j < |t| && Keys(t)[i] == Keys(t)[j];
      KeyCountTwo(t, i, j);
    }
  }

  lemma {:induction false} DistinctKeyCount(t: seq<Bucket<Pair>>, p: Pair)
    requires Distinct(Keys(t))
    ensures KeyCount(t, p) <= 1
  {
    if t != [] {
      assert Keys(t[1..]) == Keys(t)[1..];
      DistinctKeyCount(t[1..], p);
      if t[0].key == p {
        KeyCountPresent(t[1..], p);
        assert Keys(t)[0] == p;
      }
    }
  }

  lemma {:induction false} KeyCountTwo(t: seq<Bucket<Pair>>, i: nat, j: nat)
    requires i < j < |t| && t[i].key == t[j].key
    ensures KeyCount(t, t[i].key) >= 2
  {
    KeyCountPresent(t[1..], t[i].key);
    assert Keys(t[1..])[j - 1] == t[j].key;
    if i > 0 {
      KeyCountTwo(t[1..], i - 1, j - 1);
    }
  }

  /**
   * Lines 37 to 45: an edge for every actor and every technique, weighted by the count of
   * that pair or 0; `.item()` fails when a pair occurs more than once.
   */
  method BuildGraph(pairs: seq<Bucket<Pair>>, actors: seq<string>, techniques: seq<string>)
    returns (graph: Option<map<Pair, nat>>)
    ensures graph.None? <==> exists a, t :: a in actors && t in techniques && KeyCount(pairs, Pair(a, t)) >= 2
    ensures graph.Some? ==> forall p :: p in graph.value <==> p.actor in actors && p.technique in techniques
    ensures graph.Some? ==> forall p :: p in graph.value ==> graph.value[p] == Lookup(pairs, p)
  {
    var g: map<Pair, nat> := map[];
    var i := 0;
    while i < |actors|
      invariant 0 <= i <= |actors|
      invariant forall a, t :: a in actors[..i] && t in techniques ==> KeyCount(pairs, Pair(a, t)) <= 1
      invariant forall p :: p in g <==> p.actor in actors[..i] && p.technique in techniques
      invariant forall p :: p in g ==> g[p] == Lookup(pairs, p)
    {
      var next := ActorEdges(pairs, actors[i], techniques, g);
      if next.None? {
        var t :| t in techniques && KeyCount(pairs, Pair(actors[i], t)) >= 2;
        assert actors[i] in actors;
        return None;
      }
      g := next.value;
      assert actors[..i + 1] == actors[..i] + [actors[i]];
      i := i + 1;
    }
    assert actors[..i] == actors;
    graph := Some(g);
  }

  /** The inner loop of lines 38 to 45: the edges of one actor added to the graph so far. */
  method ActorEdges(pairs: seq<Bucket<Pair>>, a: string, techniques: seq<string>, g0: map<Pair, nat>)
    returns (g: Option<map<Pair, nat>>)
    requires forall p :: p in g0 ==> g0[p] == Lookup(pairs, p)
    ensures g.None? <==> exists t :: t in techniques && KeyCount(pairs, Pair(a, t)) >= 2
    ensures g.Some? ==> forall p :: p in g.value <==> p in g0 || (p.actor == a && p.technique in techniques)
    ensures g.Some? ==> forall p :: p in g.value ==> g.value[p] == Lookup(pairs, p)
  {
    var m := g0;
    var j := 0;
    while j < |techniques|
      invariant 0 <= j <= |techniques|
      invariant forall t :: t in techniques[..j] ==> KeyCount(pairs, Pair(a, t)) <= 1
      invariant forall p :: p in m <==> p in g0 || (p.actor == a && p.technique in techniques[..j])
      invariant forall p :: p in m ==> m[p] == Lookup(pairs, p)
    {
      var p := Pair(a, techniques[j]);
      var matches := Keep(pairs, HasKey(p));
      MaskFacts(pairs, p);
      if |matches| > 1 {
        assert techniques[j] in techniques;
        return None;
      }
      var weight := if |matches| > 0 then matches[0].count else 0;
      m := m[p := weight];
      assert techniques[..j + 1] == techniques[..j] + [techniques[j]];
      j := j + 1;
    }
    assert techniques[..j] == techniques;
    g := Some(m);
  }

  /** Lines 56 to 62: only the edges of positive weight are drawn. */
  method DrawnEdges(graph: map<Pair, nat>) returns (drawn: map<Pair, nat>)
    ensures forall p :: p in drawn <==> p in graph && graph[p] > 0
    ensures forall p :: p in drawn ==> drawn[p] == graph[p]
  {
    drawn := map[];
    var rest := graph.Keys;
    while rest != {}
      invariant rest <= graph.Keys
      invariant forall p :: p in drawn <==> p in graph && p !in rest && graph[p] > 0
      invariant forall p :: p in drawn ==> drawn[p] == graph[p]
      decreases rest
    {
      var p :| p in rest;
      if graph[p] > 0 {
        drawn := drawn[p := graph[p]];
      }
      rest := rest - {p};
    }
  }

  /** The actor and technique columns of a pair table, without repeats (lines 34 and 35). */
  function ActorColumn(t: seq<Bucket<Pair>>): (r: seq<string>)
    ensures Distinct(r)
    ensures forall p :: p in Keys(t) ==> p.actor in r
    ensures forall a :: a in r ==> exists i :: 0 <= i < |t| && t[i].key.actor == a
  {
    var column := seq(|t|, i requires 0 <= i < |t| => t[i].key.actor);
    forall p | p in Keys(t) ensures p.actor in column {
      var k :| 0 <= k < |t| && Keys(t)[k] == p;
      assert column[k] == p.actor;
    }
    Unique(column)
  }

  function TechniqueColumn(t: seq<Bucket<Pair>>): (r: seq<string>)
    ensures Distinct(r)
    ensures forall p :: p in Keys(t) ==> p.technique in r
    ensures forall x :: x in r ==> exists i :: 0 <= i < |t| && t[i].key.technique == x
  {
    var column := seq(|t|, i requires 0 <= i < |t| => t[i].key.technique);
    forall p | p in Keys(t) ensures p.technique in column {
      var k :| 0 <= k < |t| && Keys(t)[k] == p;
      assert column[k] == p.technique;
    }
    Unique(column)
  }

  /** A failed build means a repeated pair among the relabelled top pairs. */
  lemma RepeatedPair(top: seq<Bucket<Pair>>, a: string, t: string)
    requires KeyCount(top, Pair(a, t)) >= 2
    ensures !Distinct(Keys(top))
  {
    KeyCountDistinct(top);
  }

  /** A successful build over columns covering the pairs means no pair is repeated. */
  lemma NoRepeatedPair(top: seq<Bucket<Pair>>, actors: seq<string>, techniques: seq<string>)
    requires forall p :: p in Keys(top) ==> p.actor in actors && p.technique in techniques
    requires forall a, t :: a in actors && t in techniques ==> KeyCount(top, Pair(a, t)) <= 1
    ensures Distinct(Keys(top))
  {
    forall p ensures KeyCount(top, p) <= 1 {
      KeyCountPresent(top, p);
    }
    KeyCountDistinct(top);
  }

  /** The positive-weight edges of a complete actor-by-technique graph are the pairs of the table. */
  lemma DrawnArePairs(top: seq<Bucket<Pair>>, graph: map<Pair, nat>, drawn: map<Pair, nat>)
    requires Positive(top) && Distinct(Keys(top))
    requires forall p :: p in Keys(top) ==> p in graph
    requires forall p :: p in graph ==> graph[p] == Lookup(top, p)
    requires forall p :: p in drawn <==> p in graph && graph[p] > 0
    requires forall p :: p in drawn ==> drawn[p] == graph[p]
    ensures forall p :: p in drawn <==> p in Keys(top)
    ensures forall i :: 0 <= i < |top| ==> top[i].key in drawn && drawn[top[i].key] == top[i].count
  {
    forall p ensures p in drawn <==> p in Keys(top) {
      LookupPresent(top, p);
    }
    forall i | 0 <= i < |top| ensures drawn[top[i].key] == top[i].count {
      LookupAt(top, i);
    }
  }

  /**
   * `create_network_graph` up to the drawing: the drawn edges are exactly the relabelled
   * top pairs, each carrying its count; the build fails exactly when relabelling made two
   * of the top pairs equal.
   */
  method NetworkGraph(exploded: seq<ExplodedRow>) returns (edges: Option<map<Pair, nat>>)
    ensures var top := Relabelled(TopPairs(exploded));
      && (edges.None? <==> !Distinct(Keys(top)))
      && (edges.Some? ==> forall p :: p in edges.value <==> p in Keys(top))
      && (edges.Some? ==> forall i :: 0 <= i < |top| ==> top[i].key in edges.value && edges.value[top[i].key] == top[i].count)
  {
    var best := TopPairs(exploded);
    var table := new Bucket<Pair>[|best|](i requires 0 <= i < |best| => best[i]);
    assert table[..] == best;
    RelabelUnknown(table);
    var top := table[..];
    assert Positive(top) by {
      forall i | 0 <= i < |top| ensures top[i].count >= 1 { assert top[i].count == best[i].count; }
    }
    edges := PairGraph(top);
  }

  /** Lines 34 to 62 on the relabelled table: the columns, the graph and its drawn edges. */
  method PairGraph(top: seq<Bucket<Pair>>) returns (edges: Option<map<Pair, nat>>)
    requires Positive(top)
    ensures edges.None? <==> !Distinct(Keys(top))
    ensures edges.Some? ==> forall p :: p in edges.value <==> p in Keys(top)
    ensures edges.Some? ==> forall i :: 0 <= i < |top| ==> top[i].key in edges.value && edges.value[top[i].key] == top[i].count
  {
    var actors := ActorColumn(top);
    var techniques := TechniqueColumn(top);
    var graph := BuildGraph(top, actors, techniques);
    if graph.None? {
      edges := None;
      var a, t :| a in actors && t in techniques && KeyCount(top, Pair(a, t)) >= 2;
      RepeatedPair(top, a, t);
    } else {
      NoRepeatedPair(top, actors, techniques);
      var drawn := DrawnEdges(graph.value);
      edges := Some(drawn);
      DrawnArePairs(top, graph.value, drawn);
    }
  }
}
