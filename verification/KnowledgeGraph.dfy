/** One owner's knowledge graph: which sources support each entity and relation, and how
    relations gather evidence. Every query of the service is bound to one tenant and owner. */
module KnowledgeGraph {
  import opened ByteStrings
  import opened Options
  import opened Sizes
  import opened Sorting

  type Key = Bytes
  type Source = Bytes
  /** A relation is identified by its ends and its type. */
  datatype Link = Link(source: Key, kind: Bytes, target: Key)

  datatype Relation = Relation(sources: seq<Source>, weight: real, fact: Bytes)

  datatype Graph = Graph(entities: map<Key, seq<Source>>, relations: map<Link, Relation>)

  /** What a request says of one relation. */
  datatype Claim = Claim(weight: real, fact: Bytes)

  const MAX_STORED_SOURCES: nat := 64
  const DEFAULT_WEIGHT: real := 0.5

  // ----- parsing relations -----

  /** A relation as sent: its ends by entity key, if the reference is there and valid, and its weight, if given. */
  datatype RelationInput = RelationInput(source: Option<Key>, kind: Bytes, target: Option<Key>, fact: Bytes, weight: Option<real>)

  function WeightOf(r: RelationInput): real {
    if r.weight.None? then DEFAULT_WEIGHT else r.weight.value
  }

  predicate Acceptable(r: RelationInput) {
    r.source.Some? && r.target.Some? && 0.0 <= WeightOf(r) <= 1.0 && r.source.value != r.target.value
  }

  /** Which relation an input is about. */
  predicate About(r: RelationInput, l: Link) {
    r.source == Some(l.source) && r.kind == l.kind && r.target == Some(l.target)
  }

  function ClaimOf(r: RelationInput): Claim {
    Claim(WeightOf(r), r.fact)
  }

  /** The ends of every relation are among the entities, different, and the weights are probabilities. */
  ghost predicate WellFormed(entities: set<Key>, claims: map<Link, Claim>) {
    forall l | l in claims :: l.source in entities && l.target in entities && l.source != l.target && 0.0 <= claims[l].weight <= 1.0
  }

  /** `claims` holds, for each link some input is about, the claim of the last such input. */
  ghost predicate LastClaims(inputs: seq<RelationInput>, claims: map<Link, Claim>) {
    && (forall i, l | 0 <= i < |inputs| && About(inputs[i], l) :: l in claims)
    && forall l | l in claims :: exists i | 0 <= i < |inputs| ::
         About(inputs[i], l) && claims[l] == ClaimOf(inputs[i]) && forall j | i < j < |inputs| :: !About(inputs[j], l)
  }

  ghost predicate EndsOf(inputs: seq<RelationInput>, known: set<Key>, entities: set<Key>) {
    && known <= entities
    && (forall i | 0 <= i < |inputs| && Acceptable(inputs[i]) :: inputs[i].source.value in entities && inputs[i].target.value in entities)
    && forall k | k in entities :: k in known || exists i | 0 <= i < |inputs| :: inputs[i].source == Some(k) || inputs[i].target == Some(k)
  }

  /** A relation is claimed with the fact of the last input about it, and the weight that gives, or one half. */
  lemma ClaimsSay(inputs: seq<RelationInput>, claims: map<Link, Claim>, l: Link) returns (i: nat)
    requires LastClaims(inputs, claims) && l in claims
    ensures i < |inputs| && About(inputs[i], l) && (forall j | i < j < |inputs| :: !About(inputs[j], l))
    ensures claims[l].fact == inputs[i].fact
    ensures claims[l].weight == if inputs[i].weight.Some? then inputs[i].weight.value else 0.5
  {
    i :| 0 <= i < |inputs| && About(inputs[i], l) && claims[l] == ClaimOf(inputs[i]) && forall j | i < j < |inputs| :: !About(inputs[j], l);
  }

  lemma LastClaimsSnoc(inputs: seq<RelationInput>, r: RelationInput, claims: map<Link, Claim>)
    requires LastClaims(inputs, claims) && Acceptable(r)
    ensures LastClaims(inputs + [r], claims[Link(r.source.value, r.kind, r.target.value) := ClaimOf(r)])
  {
    hide ClaimOf;
    var link := Link(r.source.value, r.kind, r.target.value);
    var all, after := inputs + [r], claims[link := ClaimOf(r)];
    forall l | l in after
      ensures exists i | 0 <= i < |all| ::
        About(all[i], l) && after[l] == ClaimOf(all[i]) && forall j | i < j < |all| :: !About(all[j], l)
    {
      if l == link {
        assert About(all[|inputs|], l);
      } else {
        var i :| 0 <= i < |inputs| && About(inputs[i], l) && claims[l] == ClaimOf(inputs[i])
          && forall j | i < j < |inputs| :: !About(inputs[j], l);
        assert About(all[i], l) && forall j | i < j < |all| :: !About(all[j], l);
      }
    }
  }

  lemma EndsOfSnoc(inputs: seq<RelationInput>, r: RelationInput, known: set<Key>, entities: set<Key>)
    requires EndsOf(inputs, known, entities) && Acceptable(r)
    ensures EndsOf(inputs + [r], known, entities + {r.source.value, r.target.value})
  {
    var all := inputs + [r];
    forall k | k in entities + {r.source.value, r.target.value}
      ensures k in known || exists i | 0 <= i < |all| :: all[i].source == Some(k) || all[i].target == Some(k)
    {
      if k in entities && k !in known {
        var i :| 0 <= i < |inputs| && (inputs[i].source == Some(k) || inputs[i].target == Some(k));
        assert all[i] == inputs[i];
      } else {
        assert all[|inputs|] == r;
      }
    }
  }

  /** Resolves the ends, adding name-only entities, and keeps the last claim for each link; any bad input refuses all. */
  method ParseRelations(inputs: seq<RelationInput>, known: set<Key>) returns (ok: bool, entities: set<Key>, claims: map<Link, Claim>)
    ensures ok <==> forall i | 0 <= i < |inputs| :: Acceptable(inputs[i])
    ensures ok ==> WellFormed(entities, claims) && EndsOf(inputs, known, entities) && LastClaims(inputs, claims)
  {
    hide LastClaims, EndsOf;
    entities, claims := known, map[];
    assert inputs[..0] == [] && LastClaims([], claims) && EndsOf([], known, known) by { NoInputs(known); }
    for n := 0 to |inputs|
      invariant forall i | 0 <= i < n :: Acceptable(inputs[i])
      invariant WellFormed(entities, claims) && EndsOf(inputs[..n], known, entities) && LastClaims(inputs[..n], claims)
    {
      var r := inputs[n];
      if r.source.None? || r.target.None? {
        return false, entities, claims;
      }
      var weight := if r.weight.None? then DEFAULT_WEIGHT else r.weight.value;
      if !(0.0 <= weight <= 1.0) {
        return false, entities, claims;
      }
      if r.source.value == r.target.value {
        return false, entities, claims;
      }
      EndsOfSnoc(inputs[..n], r, known, entities);
      LastClaimsSnoc(inputs[..n], r, claims);
      assert inputs[..n + 1] == inputs[..n] + [r];
      entities := entities + {r.source.value, r.target.value};
      claims := claims[Link(r.source.value, r.kind, r.target.value) := Claim(weight, r.fact)];
    }
    assert inputs[..|inputs|] == inputs;
    ok := true;
  }

  lemma NoInputs(known: set<Key>)
    ensures LastClaims([], map[]) && EndsOf([], known, known)
  {
  }

  // ----- sources of one entity or relation -----

  predicate Overflows(sources: seq<Source>, s: Source) {
    s !in sources && |sources| >= MAX_STORED_SOURCES
  }

  /** `(sources + s)[-64..]` unless the source is known: the oldest goes when there are too many. */
  function AddSource(sources: seq<Source>, s: Source): seq<Source> {
    if s in sources then sources
    else
      var all := sources + [s];
      if |all| > MAX_STORED_SOURCES then all[|all| - MAX_STORED_SOURCES..] else all
  }

  function DropSource(sources: seq<Source>, s: Source): seq<Source> {
    if sources == [] then [] else (if sources[0] == s then [] else [sources[0]]) + DropSource(sources[1..], s)
  }

  ghost predicate ValidSources(sources: seq<Source>) {
    Distinct(sources) && |sources| <= MAX_STORED_SOURCES
  }

  /** Adding a source keeps every other, except the oldest when it overflows. */
  lemma AddSourceAdds(sources: seq<Source>, s: Source)
    requires ValidSources(sources)
    ensures ValidSources(AddSource(sources, s))
    ensures forall x :: x in AddSource(sources, s) <==> x == s || (x in sources && !(Overflows(sources, s) && x == sources[0]))
  {
    if s !in sources {
      var all := sources + [s];
      if |all| > MAX_STORED_SOURCES {
        var r := all[1..];
        assert AddSource(sources, s) == r;
        assert all == [all[0]] + r;
        forall x ensures x in r <==> x == s || (x in sources && x != sources[0]) {
          assert x in all <==> x == all[0] || x in r;
          assert x in all <==> x == s || x in sources;
          assert all[0] == sources[0] && all[0] !in r by {
            forall i | 0 <= i < |r| ensures r[i] != all[0] { assert r[i] == all[i + 1]; }
          }
        }
      }
    }
  }

  lemma {:induction false} DropSourceDrops(sources: seq<Source>, s: Source)
    ensures forall x :: x in DropSource(sources, s) <==> x in sources && x != s
    ensures ValidSources(sources) ==> ValidSources(DropSource(sources, s))
    ensures |DropSource(sources, s)| <= |sources|
  {
    if sources != [] {
      DropSourceDrops(sources[1..], s);
      assert sources == [sources[0]] + sources[1..];
      if ValidSources(sources) {
        assert ValidSources(sources[1..]) && sources[0] !in sources[1..];
      }
    }
  }

  // ----- upserting -----

  function SourcesOf(g: Graph, k: Key): seq<Source> {
    if k in g.entities then g.entities[k] else []
  }

  function RelationOf(g: Graph, l: Link): Relation {
    if l in g.relations then g.relations[l] else Relation([], 0.0, [])
  }

  /** One more claim for a relation: evidence counts once per source. */
  function Claimed(r: Relation, s: Source, c: Claim): Relation {
    Relation(AddSource(r.sources, s),
             if s in r.sources then r.weight else 1.0 - (1.0 - r.weight) * (1.0 - c.weight),
             if c.fact != [] then c.fact else r.fact)
  }

  function WithEntities(g: Graph, s: Source, keys: set<Key>): Graph {
    g.(entities := map k | k in g.entities.Keys + keys :: if k in keys then AddSource(SourcesOf(g, k), s) else g.entities[k])
  }

  /** Claims whose ends are both stored. */
  predicate Placed(g: Graph, l: Link) {
    l.source in g.entities && l.target in g.entities
  }

  function WithRelations(g: Graph, s: Source, claims: map<Link, Claim>): Graph {
    g.(relations := map l | l in g.relations.Keys + claims.Keys && (l in g.relations || Placed(g, l)) ::
                      if l in claims && Placed(g, l) then Claimed(RelationOf(g, l), s, claims[l]) else g.relations[l])
  }

  function Upserted(g: Graph, s: Source, keys: set<Key>, claims: map<Link, Claim>): Graph {
    WithRelations(WithEntities(g, s, keys), s, claims)
  }

  // ----- forgetting -----

  function RelationsWithout(g: Graph, s: Source): map<Link, Relation> {
    map l | l in g.relations && (s !in g.relations[l].sources || DropSource(g.relations[l].sources, s) != []) ::
      if s in g.relations[l].sources then g.relations[l].(sources := DropSource(g.relations[l].sources, s)) else g.relations[l]
  }

  predicate Touches(l: Link, k: Key) {
    l.source == k || l.target == k
  }

  predicate HasRelation(relations: map<Link, Relation>, k: Key) {
    exists l | l in relations :: Touches(l, k)
  }

  /** Entities the source supports, or at the ends of relations it supports. */
  predicate Concerned(g: Graph, s: Source, k: Key) {
    (k in g.entities && s in g.entities[k]) || exists l | l in g.relations :: s in g.relations[l].sources && Touches(l, k)
  }

  function Forgotten(g: Graph, s: Source): Graph {
    var relations := RelationsWithout(g, s);
    Graph(map k | k in g.entities && !(Concerned(g, s, k) && DropSource(g.entities[k], s) == [] && !HasRelation(relations, k)) ::
            if Concerned(g, s, k) then DropSource(g.entities[k], s) else g.entities[k],
          relations)
  }

  /** An entity is deleted with its relations. */
  function Deleted(g: Graph, k: Key): Graph {
    Graph(g.entities - {k}, map l | l in g.relations && !Touches(l, k) :: g.relations[l])
  }

  // ----- the store -----

  class Store {
    var entities: map<Key, seq<Source>>
    var relations: map<Link, Relation>

    ghost function State(): Graph
      reads this
    {
      Graph(entities, relations)
    }

    constructor ()
      ensures State() == Graph(map[], map[])
    {
      entities, relations := map[], map[];
    }

    /** One request's knowledge: its entities before the relations that need them. */
    method Upsert(s: Source, keys: set<Key>, claims: map<Link, Claim>)
      modifies this
      ensures State() == Upserted(old(State()), s, keys, claims)
    {
      UpsertEntities(s, keys);
      UpsertRelations(s, claims);
    }

    method UpsertEntities(s: Source, keys: set<Key>)
      modifies this`entities
      ensures State() == WithEntities(old(State()), s, keys)
    {
      hide AddSource;
      var rest := keys;
      while rest != {}
        invariant rest <= keys && entities == WithEntities(old(State()), s, keys - rest).entities
        decreases rest
      {
        var k :| k in rest;
        rest := rest - {k};
        entities := entities[k := AddSource(if k in entities then entities[k] else [], s)];
      }
      assert keys - rest == keys;
    }

    method UpsertRelations(s: Source, claims: map<Link, Claim>)
      modifies this`relations
      ensures State() == WithRelations(old(State()), s, claims)
    {
      hide Claimed;
      ghost var g := State();
      var rest := claims.Keys;
      while rest != {}
        invariant rest <= claims.Keys
        invariant relations == WithRelations(g, s, claims - rest).relations
        decreases rest
      {
        var l :| l in rest;
        OneMoreClaim(g, s, claims, rest, l);
        rest := rest - {l};
        if l.source in entities && l.target in entities {
          var x := if l in relations then relations[l] else Relation([], 0.0, []);
          relations := relations[l := Claimed(x, s, claims[l])];
        }
      }
      assert claims - rest == claims;
    }

    /** Removes a source from relations, then from entities, deleting what nothing supports any more. */
    method ForgetSource(s: Source) returns (deleted: set<Link>, gone: set<Key>)
      modifies this
      ensures State() == Forgotten(old(State()), s)
      ensures deleted == old(relations).Keys - relations.Keys && gone == old(entities).Keys - entities.Keys
    {
      hide DropSource, RelationsWithout, Forgotten, HasRelation;
      ghost var g := State();
      var touched: set<Key>;
      deleted, touched := ForgetRelations(s);
      gone := {};
      var rest := entities.Keys;
      ForgetEntitiesStart(g, s);
      while rest != {}
        invariant rest <= g.entities.Keys && relations == RelationsWithout(g, s)
        invariant entities == EntitiesPartly(g, s, rest) && gone == g.entities.Keys - entities.Keys
        decreases rest
      {
        var k :| k in rest;
        ForgetEntity(g, s, rest, k);
        rest := rest - {k};
        if k in touched || s in entities[k] {
          entities := entities[k := DropSource(entities[k], s)];
          if entities[k] == [] && !HasRelation(relations, k) {
            entities, gone := entities - {k}, gone + {k};
          }
        }
      }
      ForgetEntitiesEnd(g, s);
    }

    /** Deletes an entity and its relations; returns how many relations, or nothing if it is not stored. */
    method DeleteEntity(k: Key) returns (relationsDeleted: Option<nat>)
      requires forall l | l in relations :: Placed(State(), l)
      modifies this
      ensures State() == Deleted(old(State()), k)
      ensures relationsDeleted.Some? <==> k in old(entities)
      ensures relationsDeleted.Some? ==> relationsDeleted.value == |old(relations).Keys - relations.Keys|
    {
      hide Deleted, Touches;
      DeletingUnknown(State(), k);
      if k !in entities {
        return None;
      }
      var attached := set l | l in relations && Touches(l, k);
      DeletingKnown(State(), k, attached);
      relationsDeleted := Some(|attached|);
      entities, relations := entities - {k}, relations - attached;
    }

    method ForgetRelations(s: Source) returns (deleted: set<Link>, touched: set<Key>)
      modifies this`relations
      ensures relations == RelationsWithout(old(State()), s)
      ensures deleted == old(relations).Keys - relations.Keys
      ensures forall k :: k in touched <==> exists l | l in old(relations) :: s in old(relations)[l].sources && Touches(l, k)
    {
      hide DropSource, RelationsWithout;
      ghost var g := State();
      deleted, touched := {}, {};
      var rest := relations.Keys;
      ForgetStart(g, s);
      while rest != {}
        invariant rest <= g.relations.Keys && relations == Partly(g, s, rest) && deleted == g.relations.Keys - relations.Keys
        invariant forall k :: k in touched <==> exists l | l in g.relations && l !in rest :: s in g.relations[l].sources && Touches(l, k)
        decreases rest
      {
        var l :| l in rest;
        ForgetOne(g, s, rest, l);
        rest := rest - {l};
        if s in relations[l].sources {
          relations := relations[l := relations[l].(sources := DropSource(relations[l].sources, s))];
          touched := touched + {l.source, l.target};
          if relations[l].sources == [] {
            relations, deleted := relations - {l}, deleted + {l};
          }
        }
      }
      ForgetEnd(g, s);
    }
  }

  lemma DeletingUnknown(g: Graph, k: Key)
    requires forall l | l in g.relations :: Placed(g, l)
    ensures k !in g.entities ==> Deleted(g, k) == g
  {
    if k !in g.entities {
      assert Deleted(g, k).entities == g.entities && Deleted(g, k).relations == g.relations;
    }
  }

  lemma DeletingKnown(g: Graph, k: Key, attached: set<Link>)
    requires forall l :: l in attached <==> l in g.relations && Touches(l, k)
    ensures Deleted(g, k) == Graph(g.entities - {k}, g.relations - attached)
    ensures g.relations.Keys - Deleted(g, k).relations.Keys == attached
  {
    assert Deleted(g, k).relations == g.relations - attached;
  }

  /** The relations while the source is being removed: those in `rest` not yet. */
  ghost function Partly(g: Graph, s: Source, rest: set<Link>): map<Link, Relation> {
    map l | l in g.relations && (l in rest || l in RelationsWithout(g, s)) ::
      if l in rest then g.relations[l] else RelationsWithout(g, s)[l]
  }

  lemma ForgetStart(g: Graph, s: Source)
    ensures Partly(g, s, g.relations.Keys) == g.relations
  {
  }

  lemma ForgetEnd(g: Graph, s: Source)
    ensures Partly(g, s, {}) == RelationsWithout(g, s)
  {
  }

  lemma ForgetOne(g: Graph, s: Source, rest: set<Link>, l: Link)
    requires l in rest && rest <= g.relations.Keys
    ensures var before, r := Partly(g, s, rest), g.relations[l];
            && l in before && before[l] == r
            && Partly(g, s, rest - {l})
               == if s !in r.sources then before
                  else if DropSource(r.sources, s) == [] then before - {l}
                  else before[l := r.(sources := DropSource(r.sources, s))]
  {
    hide DropSource;
  }

  /** The entities while the source is being removed: those in `rest` not yet. */
  ghost function EntitiesPartly(g: Graph, s: Source, rest: set<Key>): map<Key, seq<Source>> {
    map k | k in g.entities && (k in rest || k in Forgotten(g, s).entities) ::
      if k in rest then g.entities[k] else Forgotten(g, s).entities[k]
  }

  lemma ForgetEntitiesStart(g: Graph, s: Source)
    ensures EntitiesPartly(g, s, g.entities.Keys) == g.entities
  {
  }

  lemma ForgetEntitiesEnd(g: Graph, s: Source)
    ensures Forgotten(g, s) == Graph(EntitiesPartly(g, s, {}), RelationsWithout(g, s))
  {
    hide RelationsWithout, DropSource, Concerned, HasRelation;
  }

  lemma ForgetEntity(g: Graph, s: Source, rest: set<Key>, k: Key)
    requires k in rest && rest <= g.entities.Keys
    ensures var before, sources := EntitiesPartly(g, s, rest), g.entities[k];
            && k in before && before[k] == sources
            && EntitiesPartly(g, s, rest - {k})
               == if !Concerned(g, s, k) then before
                  else if DropSource(sources, s) == [] && !HasRelation(RelationsWithout(g, s), k) then before - {k}
                  else before[k := DropSource(sources, s)]
  {
    hide RelationsWithout, DropSource, Concerned, HasRelation;
  }

  lemma OneMoreClaim(g: Graph, s: Source, claims: map<Link, Claim>, rest: set<Link>, l: Link)
    requires rest <= claims.Keys && l in rest
    ensures var before := WithRelations(g, s, claims - rest).relations;
            WithRelations(g, s, claims - (rest - {l})).relations
            == if Placed(g, l) then before[l := Claimed(if l in before then before[l] else Relation([], 0.0, []), s, claims[l])] else before
  {
    hide Claimed;
  }

  // ----- what every run keeps -----

  /** Sources are listed once and within the limit; relations have a source, stored ends and a probability. */
  ghost predicate Sound(g: Graph) {
    && (forall k | k in g.entities :: ValidSources(g.entities[k]))
    && forall l | l in g.relations :: SoundRelation(g, l)
  }

  ghost predicate SoundRelation(g: Graph, l: Link)
    requires l in g.relations
  {
    ValidSources(g.relations[l].sources) && g.relations[l].sources != [] && Placed(g, l) && 0.0 <= g.relations[l].weight <= 1.0
  }

  /** No entity is left without a source or a relation. */
  ghost predicate Rooted(g: Graph) {
    forall k | k in g.entities :: g.entities[k] != [] || HasRelation(g.relations, k)
  }

  /** Every source of a relation is a source of both its ends. */
  ghost predicate Supported(g: Graph) {
    forall l, k, x | l in g.relations && Touches(l, k) && x in g.relations[l].sources :: k in g.entities && x in g.entities[k]
  }

  lemma EvidenceIsProbability(w: real, c: real)
    requires 0.0 <= w <= 1.0 && 0.0 <= c <= 1.0
    ensures 0.0 <= 1.0 - (1.0 - w) * (1.0 - c) <= 1.0
  {
    ProductIsProbability(1.0 - w, 1.0 - c);
  }

  lemma ProductIsProbability(a: real, b: real)
    requires 0.0 <= a <= 1.0 && 0.0 <= b <= 1.0
    ensures 0.0 <= a * b <= 1.0
  {
    ProductNotNegative(a, b);
    ProductNotNegative(1.0 - a, b);
    assert (1.0 - a) * b == b - a * b;
  }

  lemma ProductNotNegative(a: real, b: real)
    requires a >= 0.0 && b >= 0.0
    ensures a * b >= 0.0
  {
  }

  lemma ClaimedIsSound(r: Relation, s: Source, c: Claim)
    requires ValidSources(r.sources) && 0.0 <= r.weight <= 1.0 && 0.0 <= c.weight <= 1.0
    ensures var q := Claimed(r, s, c);
            ValidSources(q.sources) && s in q.sources && 0.0 <= q.weight <= 1.0
  {
    hide Overflows;
    AddSourceAdds(r.sources, s);
    EvidenceIsProbability(r.weight, c.weight);
  }

  lemma UpsertKeepsSound(g: Graph, s: Source, keys: set<Key>, claims: map<Link, Claim>)
    requires Sound(g) && WellFormed(keys, claims)
    ensures Sound(Upserted(g, s, keys, claims))
  {
    hide AddSource, Claimed, ValidSources;
    var h := Upserted(g, s, keys, claims);
    NoSources();
    forall k | k in h.entities ensures ValidSources(h.entities[k]) {
      if k in keys { AddSourceAdds(SourcesOf(g, k), s); }
    }
    forall l | l in h.relations ensures SoundRelation(h, l) {
      assert l in g.relations ==> SoundRelation(g, l);
      if l in claims {
        ClaimedIsSound(RelationOf(g, l), s, claims[l]);
      }
    }
  }

  lemma NoSources()
    ensures ValidSources([])
  {
  }

  lemma UpsertKeepsRooted(g: Graph, s: Source, keys: set<Key>, claims: map<Link, Claim>)
    requires Sound(g) && Rooted(g)
    ensures Rooted(Upserted(g, s, keys, claims))
  {
    hide Claimed;
    var h := Upserted(g, s, keys, claims);
    forall k | k in h.entities ensures h.entities[k] != [] || HasRelation(h.relations, k) {
      if k !in keys && HasRelation(g.relations, k) {
        var l :| l in g.relations && Touches(l, k);
        assert l in h.relations;
      }
    }
  }

  /** No entity drops a source that one of its relations keeps: it checks the graph before the call. */
  ghost predicate DropsNothingUsed(g: Graph, s: Source, keys: set<Key>, claims: map<Link, Claim>) {
    forall k, l | k in keys && k in g.entities && Overflows(g.entities[k], s) && l in g.relations && Touches(l, k)
                  && g.entities[k][0] in g.relations[l].sources ::
      l in claims && Overflows(g.relations[l].sources, s) && g.relations[l].sources[0] == g.entities[k][0]
  }

  /** The sources of a relation after an upsert. */
  lemma RelationSourcesAfter(g: Graph, s: Source, keys: set<Key>, claims: map<Link, Claim>, l: Link, x: Source)
    requires Sound(g) && WellFormed(keys, claims)
    ensures var h := Upserted(g, s, keys, claims);
            var before := RelationOf(g, l).sources;
            (l in h.relations && x in h.relations[l].sources) <==>
              (l in claims && x == s) ||
              (l in g.relations && x in before && !(l in claims && Overflows(before, s) && x == before[0]))
  {
    hide AddSource, ValidSources, Overflows;
    NoSources();
    assert l in g.relations ==> SoundRelation(g, l);
    AddSourceAdds(RelationOf(g, l).sources, s);
  }

  lemma EntitySourcesAfter(g: Graph, s: Source, keys: set<Key>, claims: map<Link, Claim>, k: Key, x: Source)
    requires Sound(g)
    ensures var h := Upserted(g, s, keys, claims);
            (k in h.entities && x in h.entities[k]) <==>
              (k in keys && x == s) ||
              (k in g.entities && x in g.entities[k] && !(k in keys && Overflows(g.entities[k], s) && x == g.entities[k][0]))
  {
    hide AddSource, ValidSources, Overflows, Claimed;
    NoSources();
    AddSourceAdds(SourcesOf(g, k), s);
  }

  /** An upsert keeps relations supported exactly when no entity past its limit drops a source its relations keep. */
  lemma UpsertSupportedIff(g: Graph, s: Source, keys: set<Key>, claims: map<Link, Claim>)
    requires Sound(g) && Supported(g) && WellFormed(keys, claims)
    ensures Supported(Upserted(g, s, keys, claims)) <==> DropsNothingUsed(g, s, keys, claims)
  {
    hide Sound, Upserted;
    var h := Upserted(g, s, keys, claims);
    if DropsNothingUsed(g, s, keys, claims) {
      forall l, k, x | l in h.relations && Touches(l, k) && x in h.relations[l].sources ensures k in h.entities && x in h.entities[k] {
        RelationSourcesAfter(g, s, keys, claims, l, x);
        EntitySourcesAfter(g, s, keys, claims, k, x);
      }
    }
    if Supported(h) {
      forall k, l | k in keys && k in g.entities && Overflows(g.entities[k], s) && l in g.relations && Touches(l, k)
                    && g.entities[k][0] in g.relations[l].sources
        ensures l in claims && Overflows(g.relations[l].sources, s) && g.relations[l].sources[0] == g.entities[k][0]
      {
        RelationSourcesAfter(g, s, keys, claims, l, g.entities[k][0]);
        EntitySourcesAfter(g, s, keys, claims, k, g.entities[k][0]);
      }
    }
  }

  /** Forgetting a source removes every trace of it, keeps exactly the relations another source supports, with
      their weight and fact, and exactly the entities another source or a kept relation supports. */
  lemma ForgettingForgets(g: Graph, s: Source)
    requires Sound(g) && Rooted(g)
    ensures var h := Forgotten(g, s);
            && (forall l | l in h.relations :: s !in h.relations[l].sources)
            && (forall k | k in h.entities :: s !in h.entities[k])
            && (forall l :: l in h.relations <==> l in g.relations && exists x | x in g.relations[l].sources :: x != s)
            && (forall l | l in h.relations ::
                  && h.relations[l].weight == g.relations[l].weight && h.relations[l].fact == g.relations[l].fact
                  && forall x :: x in h.relations[l].sources <==> x in g.relations[l].sources && x != s)
            && (forall k :: k in h.entities <==> k in g.entities && ((exists x | x in g.entities[k] :: x != s) || HasRelation(h.relations, k)))
            && (forall k | k in h.entities :: forall x :: x in h.entities[k] <==> x in g.entities[k] && x != s)
  {
    var h := Forgotten(g, s);
    forall l | l in g.relations
      ensures l in h.relations <==> exists x | x in g.relations[l].sources :: x != s
      ensures l in h.relations ==> forall x :: x in h.relations[l].sources <==> x in g.relations[l].sources && x != s
    {
      assert SoundRelation(g, l);
      Remaining(g.relations[l].sources, s);
    }
    forall k | k in g.entities
      ensures k in h.entities <==> (exists x | x in g.entities[k] :: x != s) || HasRelation(h.relations, k)
      ensures k in h.entities ==> forall x :: x in h.entities[k] <==> x in g.entities[k] && x != s
    {
      Remaining(g.entities[k], s);
      if !Concerned(g, s, k) && g.entities[k] == [] {
        var l :| l in g.relations && Touches(l, k);
        assert l in h.relations;
      }
    }
  }

  lemma Remaining(sources: seq<Source>, s: Source)
    ensures forall x :: x in DropSource(sources, s) <==> x in sources && x != s
    ensures DropSource(sources, s) != [] <==> exists x | x in sources :: x != s
    ensures sources != [] ==> sources[0] in sources
  {
    DropSourceDrops(sources, s);
    if DropSource(sources, s) != [] {
      assert DropSource(sources, s)[0] in DropSource(sources, s);
    }
  }

  lemma ForgetKeepsEnds(g: Graph, s: Source, l: Link)
    requires Sound(g) && l in RelationsWithout(g, s)
    ensures Placed(Forgotten(g, s), l)
  {
    hide ValidSources, DropSource;
    assert SoundRelation(g, l) && Touches(l, l.source) && Touches(l, l.target);
    assert HasRelation(RelationsWithout(g, s), l.source) && HasRelation(RelationsWithout(g, s), l.target);
  }

  lemma ForgetKeepsSound(g: Graph, s: Source)
    requires Sound(g)
    ensures Sound(Forgotten(g, s))
  {
    hide ValidSources, DropSource, Placed;
    var h := Forgotten(g, s);
    forall k | k in h.entities ensures ValidSources(h.entities[k]) { DropSourceDrops(g.entities[k], s); }
    forall l | l in h.relations ensures SoundRelation(h, l) {
      assert SoundRelation(g, l);
      DropSourceDrops(g.relations[l].sources, s);
      ForgetKeepsEnds(g, s, l);
    }
  }

  lemma ForgetKeepsRooted(g: Graph, s: Source)
    requires Sound(g) && Rooted(g)
    ensures Rooted(Forgotten(g, s))
  {
    hide SoundRelation;
    var h := Forgotten(g, s);
    forall k | k in h.entities ensures h.entities[k] != [] || HasRelation(h.relations, k) {
      if !Concerned(g, s, k) && g.entities[k] == [] {
        var l :| l in g.relations && Touches(l, k);
        assert l in h.relations;
      }
    }
  }

  lemma ForgottenSources(g: Graph, s: Source, l: Link, k: Key, x: Source)
    ensures var h := Forgotten(g, s);
            && (l in h.relations && x in h.relations[l].sources ==> l in g.relations && x in g.relations[l].sources && x != s)
            && (k in g.entities && x in g.entities[k] && x != s ==> k in h.entities && x in h.entities[k])
  {
    if l in g.relations { DropSourceDrops(g.relations[l].sources, s); }
    if k in g.entities { DropSourceDrops(g.entities[k], s); }
  }

  lemma ForgetKeepsSupported(g: Graph, s: Source)
    requires Supported(g)
    ensures Supported(Forgotten(g, s))
  {
    hide Forgotten;
    var h := Forgotten(g, s);
    forall l, k, x | l in h.relations && Touches(l, k) && x in h.relations[l].sources ensures k in h.entities && x in h.entities[k] {
      ForgottenSources(g, s, l, k, x);
    }
  }

  lemma DeleteKeepsSound(g: Graph, k: Key)
    requires Sound(g)
    ensures Sound(Deleted(g, k))
  {
    hide ValidSources;
    var h := Deleted(g, k);
    forall l | l in h.relations ensures SoundRelation(h, l) { assert SoundRelation(g, l); }
  }

  lemma DeleteKeepsSupported(g: Graph, k: Key)
    requires Supported(g)
    ensures Supported(Deleted(g, k))
  {
  }

  /** Deleting an entity leaves another with nothing to keep it exactly when that one had no source, and no relation
      but to the entity deleted. */
  lemma DeleteKeepsRootedIff(g: Graph, k: Key)
    requires Rooted(g)
    ensures Rooted(Deleted(g, k)) <==>
            !exists j | j in g.entities && j != k :: g.entities[j] == [] && forall l | l in g.relations && Touches(l, j) :: Touches(l, k)
  {
    var h := Deleted(g, k);
    if j :| j in g.entities && j != k && g.entities[j] == [] && forall l | l in g.relations && Touches(l, j) :: Touches(l, k) {
      assert j in h.entities && !HasRelation(h.relations, j);
    } else {
      forall j | j in h.entities ensures h.entities[j] != [] || HasRelation(h.relations, j) {
        if g.entities[j] == [] {
          var l :| l in g.relations && Touches(l, j) && !Touches(l, k);
          assert l in h.relations;
        }
      }
    }
  }

  /** Where relations are supported, no entity is without a source. */
  lemma SupportedEntitiesHaveSources(g: Graph)
    requires Sound(g) && Rooted(g) && Supported(g)
    ensures forall k | k in g.entities :: g.entities[k] != []
  {
    forall k | k in g.entities ensures g.entities[k] != [] {
      if HasRelation(g.relations, k) {
        var l :| l in g.relations && Touches(l, k);
        assert SoundRelation(g, l);
        assert g.relations[l].sources[0] in g.entities[k];
      }
    }
  }

  datatype Op = Upsert(s: Source, keys: set<Key>, claims: map<Link, Claim>) | Forget(s: Source) | Delete(k: Key)

  function After(g: Graph, op: Op): Graph {
    match op
    case Upsert(s, keys, claims) => Upserted(g, s, keys, claims)
    case Forget(s) => Forgotten(g, s)
    case Delete(k) => Deleted(g, k)
  }

  /** Upserts come parsed. */
  ghost predicate Parsed(op: Op) {
    op.Upsert? ==> WellFormed(op.keys, op.claims)
  }

  ghost predicate IsRun(graphs: seq<Graph>, ops: seq<Op>) {
    && |graphs| == |ops| + 1 && graphs[0] == Graph(map[], map[])
    && forall i | 0 <= i < |ops| :: Parsed(ops[i]) && graphs[i + 1] == After(graphs[i], ops[i])
  }

  /** In every run each relation has a source, stored ends and a probability. */
  lemma {:induction false} RunIsSound(graphs: seq<Graph>, ops: seq<Op>, n: nat)
    requires IsRun(graphs, ops) && n < |graphs|
    ensures Sound(graphs[n])
  {
    if n > 0 {
      hide Sound, Upserted, Forgotten, Deleted;
      RunIsSound(graphs, ops, n - 1);
      var g := graphs[n - 1];
      match ops[n - 1]
      case Upsert(s, keys, claims) => UpsertKeepsSound(g, s, keys, claims);
      case Forget(s) => ForgetKeepsSound(g, s);
      case Delete(k) => DeleteKeepsSound(g, k);
    }
  }

  /** No upsert makes an entity drop a source its relations keep: in particular, no entity passes 64 sources. */
  ghost predicate NothingUsedDropped(graphs: seq<Graph>, ops: seq<Op>)
    requires |ops| < |graphs|
  {
    forall i | 0 <= i < |ops| :: ops[i].Upsert? ==> DropsNothingUsed(graphs[i], ops[i].s, ops[i].keys, ops[i].claims)
  }

  /** Then every source of a relation is always a source of both its ends. */
  lemma {:induction false} RunIsSupported(graphs: seq<Graph>, ops: seq<Op>, n: nat)
    requires IsRun(graphs, ops) && n < |graphs| && NothingUsedDropped(graphs, ops)
    ensures Supported(graphs[n])
  {
    if n > 0 {
      hide Sound, Upserted, Forgotten, Deleted, Supported, DropsNothingUsed;
      RunIsSupported(graphs, ops, n - 1);
      RunIsSound(graphs, ops, n - 1);
      var g := graphs[n - 1];
      match ops[n - 1]
      case Upsert(s, keys, claims) => UpsertSupportedIff(g, s, keys, claims);
      case Forget(s) => ForgetKeepsSupported(g, s);
      case Delete(k) => DeleteKeepsSupported(g, k);
    }
  }

  /** No entity is ever left without a source or a relation, unless entities are deleted after an upsert dropped a used source. */
  lemma {:induction false} RunIsRooted(graphs: seq<Graph>, ops: seq<Op>, n: nat)
    requires IsRun(graphs, ops) && n < |graphs|
    requires NothingUsedDropped(graphs, ops) || forall i | 0 <= i < n :: !ops[i].Delete?
    ensures Rooted(graphs[n])
  {
    if n > 0 {
      hide Sound, Rooted, Upserted, Forgotten, Deleted, Supported, NothingUsedDropped;
      RunIsRooted(graphs, ops, n - 1);
      RunIsSound(graphs, ops, n - 1);
      var g := graphs[n - 1];
      match ops[n - 1]
      case Upsert(s, keys, claims) => UpsertKeepsRooted(g, s, keys, claims);
      case Forget(s) => ForgetKeepsRooted(g, s);
      case Delete(k) =>
        RunIsSupported(graphs, ops, n - 1);
        SupportedEntitiesHaveSources(g);
        DeleteKeepsRootedIff(g, k);
    }
  }

  // ----- runs past the limit -----

  /** The source named by one byte. */
  function Name(i: nat): Source {
    BigEndian(i, 1)
  }

  lemma NamesDiffer(i: nat, j: nat)
    requires i < 256 && j < 256 && Name(i) == Name(j)
    ensures i == j
  {
    assert Power256(1) == 256;
    BigEndianInjective(i, j, 1);
  }

  /** The sources named `i` up to `j`. */
  function Names(i: nat, j: nat): (r: seq<Source>)
    requires i <= j
    ensures |r| == j - i && forall k | 0 <= k < j - i :: r[k] == Name(i + k)
  {
    seq(j - i, k requires 0 <= k < j - i => Name(i + k))
  }

  lemma NameIn(k: nat, i: nat, j: nat)
    requires i <= j <= 256 && k < 256
    ensures Name(k) in Names(i, j) <==> i <= k < j
    ensures Distinct(Names(i, j))
  {
    hide Name;
    var r := Names(i, j);
    if i <= k < j { assert r[k - i] == Name(k); }
    forall m | 0 <= m < |r| && r[m] == Name(k) ensures i <= k < j { NamesDiffer(i + m, k); }
    forall m, n | 0 <= m < n < |r| ensures r[m] != r[n] {
      if r[m] == r[n] { NamesDiffer(i + m, i + n); }
    }
  }

  lemma {:induction false} DropsNothing(sources: seq<Source>, s: Source)
    requires s !in sources
    ensures DropSource(sources, s) == sources
  {
    if sources != [] { DropsNothing(sources[1..], s); }
  }

  /** Two related entities, and what each lists; the first source claimed the relation. */
  ghost function Related(l: Link, atSource: seq<Source>, atTarget: seq<Source>): Graph {
    Graph(map[l.source := atSource, l.target := atTarget], map[l := Relation([Name(0)], 0.5, [])])
  }

  /** 64 sources mention both ends, the first of them the relation; one more mentions one end; then that end's
      sources are forgotten one by one, and the other end is deleted. */
  function StoryOp(l: Link, i: nat): Op {
    if i == 0 then Upsert(Name(0), {l.source, l.target}, map[l := Claim(0.5, [])])
    else if i < 64 then Upsert(Name(i), {l.source, l.target}, map[])
    else if i == 64 then Upsert(Name(64), {l.source}, map[])
    else if i < 129 then Forget(Name(i - 64))
    else Delete(l.target)
  }

  ghost function StoryGraph(l: Link, i: nat): Graph {
    if i == 0 then Graph(map[], map[])
    else if i <= 64 then Related(l, Names(0, i), Names(0, i))
    else if i <= 128 then Related(l, Names(i - 64, 65), [Name(0)] + Names(i - 64, 64))
    else if i == 129 then Related(l, [], [Name(0)])
    else Graph(map[l.source := []], map[])
  }

  lemma StoryStarts(l: Link)
    requires l.source != l.target
    ensures StoryGraph(l, 1) == After(StoryGraph(l, 0), StoryOp(l, 0))
  {
    assert Names(0, 1) == [Name(0)] && [] + [Name(0)] == [Name(0)];
    hide Name;
    var g := WithEntities(Graph(map[], map[]), Name(0), {l.source, l.target});
    assert g.entities == map[l.source := [Name(0)], l.target := [Name(0)]];
    assert WithRelations(g, Name(0), map[l := Claim(0.5, [])]).relations == map[l := Relation([Name(0)], 0.5, [])];
  }

  lemma MentionRelated(l: Link, x: seq<Source>, y: seq<Source>, s: Source, keys: set<Key>)
    requires l.source != l.target && keys <= {l.source, l.target}
    ensures Upserted(Related(l, x, y), s, keys, map[])
            == Related(l, if l.source in keys then AddSource(x, s) else x, if l.target in keys then AddSource(y, s) else y)
  {
    hide AddSource, Name, WithRelations;
    var g := Related(l, x, y);
    var h := Related(l, if l.source in keys then AddSource(x, s) else x, if l.target in keys then AddSource(y, s) else y);
    assert WithEntities(g, s, keys).entities == h.entities;
    ClaimingNothing(h, s);
  }

  lemma ClaimingNothing(g: Graph, s: Source)
    ensures WithRelations(g, s, map[]) == g
  {
    assert WithRelations(g, s, map[]).relations == g.relations;
  }

  lemma OneMoreName(i: nat)
    requires 1 <= i <= 64
    ensures AddSource(Names(0, i), Name(i)) == if i == 64 then Names(1, 65) else Names(0, i + 1)
    ensures [Name(0)] + Names(1, 64) == Names(0, 64)
  {
    hide Name;
    NameIn(i, 0, i);
    var all := Names(0, i) + [Name(i)];
    assert all == Names(0, i + 1);
    assert i == 64 ==> all[1..] == Names(1, 65);
  }

  lemma MoreMention(l: Link, i: nat)
    requires l.source != l.target && 1 <= i <= 64
    ensures StoryGraph(l, i + 1) == After(StoryGraph(l, i), StoryOp(l, i))
  {
    hide Name, Names, AddSource, Related, Upserted;
    OneMoreName(i);
    MentionRelated(l, Names(0, i), Names(0, i), Name(i), if i == 64 then {l.source} else {l.source, l.target});
  }

  lemma ForgetRelated(l: Link, x: seq<Source>, y: seq<Source>, s: Source)
    requires l.source != l.target && s != Name(0)
    ensures Forgotten(Related(l, x, y), s) == Related(l, DropSource(x, s), DropSource(y, s))
  {
    hide DropSource, Name;
    var g := Related(l, x, y);
    if s !in x { DropsNothing(x, s); }
    if s !in y { DropsNothing(y, s); }
    assert l in g.relations && Touches(l, l.source) && Touches(l, l.target);
    assert RelationsWithout(g, s) == g.relations;
    assert HasRelation(g.relations, l.source) && HasRelation(g.relations, l.target);
    assert Forgotten(g, s).entities == map[l.source := DropSource(x, s), l.target := DropSource(y, s)];
  }

  /** Forgetting what one end lists first, and the other after the first. */
  lemma ForgetNext(l: Link, i: nat)
    requires l.source != l.target && 65 <= i <= 128
    ensures StoryGraph(l, i + 1) == After(StoryGraph(l, i), StoryOp(l, i))
  {
    var k := i - 64;
    assert Name(k) != Name(0) by { if Name(k) == Name(0) { NamesDiffer(k, 0); } }
    hide Name, Names, DropSource, Related, Forgotten;
    NextDropped(k, 65);
    NextDroppedAfterFirst(k);
    ForgetRelated(l, Names(k, 65), [Name(0)] + Names(k, 64), Name(k));
  }

  lemma NextDropped(k: nat, j: nat)
    requires k < j <= 65
    ensures DropSource(Names(k, j), Name(k)) == Names(k + 1, j) && Name(k) in Names(k, j)
    ensures Names(65, 65) == []
  {
    hide Name;
    NameIn(k, k + 1, j);
    NameIn(k, k, j);
    assert Names(k, j)[1..] == Names(k + 1, j);
    DropsNothing(Names(k + 1, j), Name(k));
  }

  lemma NextDroppedAfterFirst(k: nat)
    requires 1 <= k <= 64
    ensures DropSource([Name(0)] + Names(k, 64), Name(k)) == if k == 64 then [Name(0)] else [Name(0)] + Names(k + 1, 64)
    ensures k < 64 ==> Name(k) in [Name(0)] + Names(k, 64)
    ensures k == 64 ==> [Name(0)] + Names(k, 64) == [Name(0)]
  {
    hide Name;
    assert Name(k) != Name(0) by { if Name(k) == Name(0) { NamesDiffer(k, 0); } }
    assert ([Name(0)] + Names(k, 64))[1..] == Names(k, 64);
    if k < 64 {
      NextDropped(k, 64);
    }
  }

  lemma StoryEnds(l: Link)
    requires l.source != l.target
    ensures StoryGraph(l, 130) == After(StoryGraph(l, 129), StoryOp(l, 129))
  {
    var g := StoryGraph(l, 129);
    assert Touches(l, l.target);
    assert Deleted(g, l.target).entities == map[l.source := []] && Deleted(g, l.target).relations == map[];
  }

  lemma StoryStep(l: Link, i: nat)
    requires l.source != l.target && i < 130
    ensures Parsed(StoryOp(l, i)) && StoryGraph(l, i + 1) == After(StoryGraph(l, i), StoryOp(l, i))
  {
    hide StoryGraph, After;
    if i == 0 { StoryStarts(l); }
    else if i <= 64 { MoreMention(l, i); }
    else if i <= 128 { ForgetNext(l, i); }
    else { StoryEnds(l); }
  }

  /** The first `n` operations of the story are a run. */
  lemma Story(l: Link, n: nat) returns (graphs: seq<Graph>, ops: seq<Op>)
    requires l.source != l.target && n <= 130
    ensures IsRun(graphs, ops) && |ops| == n
    ensures forall i | 0 <= i <= n :: graphs[i] == StoryGraph(l, i)
    ensures forall i | 0 <= i < n :: ops[i] == StoryOp(l, i)
  {
    hide StoryGraph, StoryOp, After;
    graphs := seq(n + 1, i requires 0 <= i <= n => StoryGraph(l, i));
    ops := seq(n, i requires 0 <= i < n => StoryOp(l, i));
    forall i | 0 <= i < n ensures Parsed(ops[i]) && graphs[i + 1] == After(graphs[i], ops[i]) { StoryStep(l, i); }
    assert StoryGraph(l, 0) == Graph(map[], map[]) by { StoryBegins(l); }
  }

  lemma StoryBegins(l: Link)
    ensures StoryGraph(l, 0) == Graph(map[], map[])
  {
  }

  /** The limit matters: a run of 65 upserts after the last of which a relation names a source its end has dropped,
      although before it every source of a relation was a source of both its ends. */
  lemma SixtyFifthSourceLosesSupport(l: Link) returns (graphs: seq<Graph>, ops: seq<Op>)
    requires l.source != l.target
    ensures IsRun(graphs, ops) && |ops| == 65 && (forall i | 0 <= i < 65 :: ops[i].Upsert?)
    ensures Supported(graphs[64]) && !Supported(graphs[65])
  {
    graphs, ops := Story(l, 65);
    hide Name, IsRun, Names;
    NameIn(0, 0, 64);
    NameIn(0, 1, 65);
    var before, after := StoryGraph(l, 64), StoryGraph(l, 65);
    assert Supported(before);
    assert l in after.relations && Touches(l, l.source) && Name(0) in after.relations[l].sources && Name(0) !in after.entities[l.source];
  }

  /** Deleting an entity may leave another that nothing keeps: a run that ends so, with a delete. */
  lemma DeletingMayUproot(l: Link) returns (graphs: seq<Graph>, ops: seq<Op>)
    requires l.source != l.target
    ensures IsRun(graphs, ops) && |ops| == 130 && ops[129] == Delete(l.target)
    ensures Rooted(graphs[129]) && !Rooted(graphs[130])
  {
    graphs, ops := Story(l, 130);
    hide IsRun;
    var before, after := StoryGraph(l, 129), StoryGraph(l, 130);
    assert l in before.relations && Touches(l, l.source) && Touches(l, l.target);
    assert l.source in after.entities && !HasRelation(after.relations, l.source);
  }

  // ----- evidence -----

  function Times(a: real, b: real): real {
    a * b
  }

  lemma TimesCommutes(a: real, b: real, c: real)
    ensures Times(a, Times(b, c)) == Times(b, Times(a, c))
  {
  }

  /** The product of (1 - w) over the sources, in no particular order. */
  ghost function Doubt(evidence: map<Source, real>): real {
    if evidence.Keys == {} then 1.0
    else
      var s :| s in evidence;
      Times(1.0 - evidence[s], Doubt(evidence - {s}))
  }

  lemma {:induction false} DoubtOf(evidence: map<Source, real>, s: Source)
    requires s in evidence
    ensures Doubt(evidence) == Times(1.0 - evidence[s], Doubt(evidence - {s}))
    decreases evidence.Keys
  {
    hide Times;
    var t :| t in evidence && Doubt(evidence) == Times(1.0 - evidence[t], Doubt(evidence - {t}));
    if t != s {
      DoubtOf(evidence - {t}, s);
      DoubtOf(evidence - {s}, t);
      assert evidence - {t} - {s} == evidence - {s} - {t};
      TimesCommutes(1.0 - evidence[t], 1.0 - evidence[s], Doubt(evidence - {s} - {t}));
    }
  }

  /** What each source first claimed for a link since its relation was last created, after `n` operations. */
  ghost function Evidence(graphs: seq<Graph>, ops: seq<Op>, l: Link, n: nat): map<Source, real>
    requires n <= |ops| < |graphs|
  {
    if n == 0 then map[]
    else
      var before := Evidence(graphs, ops, l, n - 1);
      match ops[n - 1]
      case Upsert(s, _, claims) => if l in claims then Heard(before, s, claims[l]) else before
      case _ => if l in graphs[n].relations then before else map[]
  }

  ghost function Heard(evidence: map<Source, real>, s: Source, c: Claim): map<Source, real> {
    if s in evidence then evidence else evidence[s := c.weight]
  }

  /** The weight is 1 minus the product of (1 - w) over the sources heard, each counted once. */
  ghost predicate Weighed(r: Relation, evidence: map<Source, real>) {
    r.weight == 1.0 - Doubt(evidence) && forall x | x in r.sources :: x in evidence
  }

  /** A source heard before is still listed, or has nothing to add: it can be told before the call. */
  ghost predicate NotForgotten(r: Relation, evidence: map<Source, real>, s: Source, c: Claim) {
    s in evidence ==> s in r.sources || c.weight == 0.0 || r.weight == 1.0
  }

  lemma NoisyOr(w: real, d: real, c: real)
    requires w == 1.0 - d
    ensures 1.0 - (1.0 - w) * (1.0 - c) == 1.0 - Times(1.0 - c, d)
  {
  }

  lemma AddsNothing(w: real, c: real)
    ensures 1.0 - (1.0 - w) * (1.0 - c) == w <==> c == 0.0 || w == 1.0
  {
    assert 1.0 - (1.0 - w) * (1.0 - c) - w == (1.0 - w) * c;
  }

  lemma AddSourceNamesNoOther(sources: seq<Source>, s: Source)
    ensures forall x | x in AddSource(sources, s) :: x in sources || x == s
    ensures s in sources ==> AddSource(sources, s) == sources
  {
  }

  /** A claim is counted once per source exactly when its source was not heard and then dropped from the list. */
  lemma ClaimWeighsIff(r: Relation, evidence: map<Source, real>, s: Source, c: Claim)
    requires Weighed(r, evidence)
    ensures Weighed(Claimed(r, s, c), Heard(evidence, s, c)) <==> NotForgotten(r, evidence, s, c)
  {
    hide Times, Doubt, AddSource;
    AddSourceNamesNoOther(r.sources, s);
    if s in evidence {
      AddsNothing(r.weight, c.weight);
    } else {
      var after := evidence[s := c.weight];
      DoubtOf(after, s);
      assert after - {s} == evidence;
      NoisyOr(r.weight, Doubt(evidence), c.weight);
    }
  }

  ghost predicate NoneForgotten(graphs: seq<Graph>, ops: seq<Op>, l: Link)
    requires |ops| < |graphs|
  {
    forall i | 0 <= i < |ops| && ops[i].Upsert? && l in ops[i].claims ::
      NotForgotten(RelationOf(graphs[i], l), Evidence(graphs, ops, l, i), ops[i].s, ops[i].claims[l])
  }

  lemma NothingWeighed()
    ensures Weighed(Relation([], 0.0, []), map[])
  {
  }

  lemma ForgettingWeighs(g: Graph, s: Source, l: Link, evidence: map<Source, real>)
    requires Weighed(RelationOf(g, l), evidence)
    ensures Weighed(RelationOf(Forgotten(g, s), l), if l in Forgotten(g, s).relations then evidence else map[])
  {
    hide DropSource, Doubt;
    NothingWeighed();
    DropSourceDrops(RelationOf(g, l).sources, s);
  }

  lemma DeletingWeighs(g: Graph, k: Key, l: Link, evidence: map<Source, real>)
    requires Weighed(RelationOf(g, l), evidence)
    ensures Weighed(RelationOf(Deleted(g, k), l), if l in Deleted(g, k).relations then evidence else map[])
  {
    hide Doubt;
    NothingWeighed();
  }

  lemma UpsertedRelation(g: Graph, s: Source, keys: set<Key>, claims: map<Link, Claim>, l: Link)
    requires WellFormed(keys, claims)
    ensures RelationOf(Upserted(g, s, keys, claims), l)
            == if l in claims then Claimed(RelationOf(g, l), s, claims[l]) else RelationOf(g, l)
  {
    hide Claimed, AddSource;
  }

  /** In every run where no source is heard, dropped and heard again, a relation's weight is 1 minus the product of
      (1 - w) over the sources that claimed it since it was created: repeats and the order of claims do not matter. */
  lemma {:induction false} WeightIsNoisyOr(graphs: seq<Graph>, ops: seq<Op>, l: Link, n: nat)
    requires IsRun(graphs, ops) && NoneForgotten(graphs, ops, l) && n <= |ops|
    ensures Weighed(RelationOf(graphs[n], l), Evidence(graphs, ops, l, n))
  {
    hide Weighed, Claimed, NotForgotten, Heard, Upserted, Forgotten, Deleted;
    if n == 0 {
      NothingWeighed();
    } else {
      WeightIsNoisyOr(graphs, ops, l, n - 1);
      var evidence, g := Evidence(graphs, ops, l, n - 1), graphs[n - 1];
      match ops[n - 1]
      case Upsert(s, keys, claims) =>
        UpsertedRelation(g, s, keys, claims, l);
        if l in claims {
          ClaimWeighsIff(RelationOf(g, l), evidence, s, claims[l]);
        }
      case Forget(s) => ForgettingWeighs(g, s, l, evidence);
      case Delete(k) => DeletingWeighs(g, k, l, evidence);
    }
  }

  /** A relation lists each source heard. */
  ghost predicate Listed(r: Relation, evidence: map<Source, real>) {
    |r.sources| == |evidence| && forall x :: x in r.sources <==> x in evidence
  }

  lemma HeardGrows(evidence: map<Source, real>, s: Source, c: Claim)
    ensures |Heard(evidence, s, c)| == |evidence| + if s in evidence then 0 else 1
  {
    OneMore(evidence, s, c.weight);
  }

  lemma ClaimLists(r: Relation, evidence: map<Source, real>, s: Source, c: Claim)
    requires Listed(r, evidence) && |Heard(evidence, s, c)| <= MAX_STORED_SOURCES
    ensures Listed(Claimed(r, s, c), Heard(evidence, s, c))
  {
    HeardGrows(evidence, s, c);
    assert forall x :: x in r.sources + [s] <==> x in r.sources || x == s;
  }

  /** Up to 64 sources, and without forgetting, no source heard is ever dropped. */
  lemma {:induction false} FewSourcesStayListed(graphs: seq<Graph>, ops: seq<Op>, l: Link, n: nat)
    requires IsRun(graphs, ops) && n <= |ops| && (forall i | 0 <= i < n :: ops[i].Upsert?)
    requires |Evidence(graphs, ops, l, n)| <= MAX_STORED_SOURCES
    ensures Listed(RelationOf(graphs[n], l), Evidence(graphs, ops, l, n))
  {
    hide Claimed, Heard, Upserted;
    if n > 0 {
      var evidence, g, op := Evidence(graphs, ops, l, n - 1), graphs[n - 1], ops[n - 1];
      UpsertedRelation(g, op.s, op.keys, op.claims, l);
      if l in op.claims {
        HeardGrows(evidence, op.s, op.claims[l]);
        FewSourcesStayListed(graphs, ops, l, n - 1);
        ClaimLists(RelationOf(g, l), evidence, op.s, op.claims[l]);
      } else {
        FewSourcesStayListed(graphs, ops, l, n - 1);
      }
    }
  }

  /** Upserts only add to what was heard. */
  lemma {:induction false} EvidenceGrows(graphs: seq<Graph>, ops: seq<Op>, l: Link, m: nat, n: nat)
    requires m <= n <= |ops| < |graphs| && forall i | 0 <= i < n :: ops[i].Upsert?
    ensures |Evidence(graphs, ops, l, m)| <= |Evidence(graphs, ops, l, n)|
    decreases n
  {
    hide Heard;
    if m < n {
      EvidenceGrows(graphs, ops, l, m, n - 1);
      if l in ops[n - 1].claims {
        HeardGrows(Evidence(graphs, ops, l, n - 1), ops[n - 1].s, ops[n - 1].claims[l]);
      }
    }
  }

  /** In every run of upserts, a relation claimed by up to 64 sources has the weight 1 minus the product of (1 - w) over them:
      each source counts once, by what it claimed first, and the order of the claims does not matter. */
  lemma WeightOverDistinctSources(graphs: seq<Graph>, ops: seq<Op>, l: Link)
    requires IsRun(graphs, ops) && (forall i | 0 <= i < |ops| :: ops[i].Upsert?)
    requires |Evidence(graphs, ops, l, |ops|)| <= MAX_STORED_SOURCES
    ensures Weighed(RelationOf(graphs[|ops|], l), Evidence(graphs, ops, l, |ops|))
    ensures Listed(RelationOf(graphs[|ops|], l), Evidence(graphs, ops, l, |ops|))
  {
    hide Evidence, Weighed, Upserted, Forgotten, Deleted;
    forall i | 0 <= i < |ops| && l in ops[i].claims
      ensures NotForgotten(RelationOf(graphs[i], l), Evidence(graphs, ops, l, i), ops[i].s, ops[i].claims[l])
    {
      EvidenceGrows(graphs, ops, l, i, |ops|);
      FewSourcesStayListed(graphs, ops, l, i);
    }
    FewSourcesStayListed(graphs, ops, l, |ops|);
    WeightIsNoisyOr(graphs, ops, l, |ops|);
  }

  /** Forgetting keeps the weight, so a source forgotten and heard again counts twice. */
  lemma ReturningSourceCountsTwice(g: Graph, s: Source, t: Source, l: Link)
    requires s != t && l.source != l.target && RelationOf(g, l) == Relation([s, t], 0.75, [])
    ensures RelationOf(Upserted(Forgotten(g, s), s, {l.source, l.target}, map[l := Claim(0.5, [])]), l) == Relation([t, s], 0.875, [])
  {
    hide Upserted, Forgotten;
    assert [s, t][1..] == [t] && [t][1..] == [];
    assert DropSource([t], s) == [t] + DropSource([], s) == [t];
    ForgottenRelation(g, s, l);
    UpsertedRelation(Forgotten(g, s), s, {l.source, l.target}, map[l := Claim(0.5, [])], l);
    assert [t] + [s] == [t, s];
  }

  lemma ForgottenRelation(g: Graph, s: Source, l: Link)
    requires RelationOf(g, l).sources != [] && DropSource(RelationOf(g, l).sources, s) != []
    ensures RelationOf(Forgotten(g, s), l)
            == if s in RelationOf(g, l).sources then RelationOf(g, l).(sources := DropSource(RelationOf(g, l).sources, s)) else RelationOf(g, l)
  {
    hide DropSource;
  }

  // ----- facts -----

  ghost predicate Says(op: Op, l: Link, fact: Bytes) {
    op.Upsert? && l in op.claims && op.claims[l].fact == fact && fact != []
  }

  ghost predicate SaysSomething(op: Op, l: Link) {
    op.Upsert? && l in op.claims && op.claims[l].fact != []
  }

  /** The relation is not there after operation `j`. */
  ghost predicate GoneAfter(graphs: seq<Graph>, j: int, l: Link) {
    0 <= j < |graphs| - 1 && l !in graphs[j + 1].relations
  }

  /** Nothing since operation `i` said anything else of the relation, or removed it. */
  ghost predicate LastSaid(graphs: seq<Graph>, ops: seq<Op>, l: Link, i: int, n: nat, fact: Bytes) {
    0 <= i < n <= |ops| && Says(ops[i], l, fact) && forall j | i < j < n :: !SaysSomething(ops[j], l) && !GoneAfter(graphs, j, l)
  }

  /** Whatever was said of the relation, it was removed since. */
  ghost predicate NothingSaid(graphs: seq<Graph>, ops: seq<Op>, l: Link, n: nat) {
    n <= |ops| && forall i | 0 <= i < n && SaysSomething(ops[i], l) :: exists j | i < j < n :: GoneAfter(graphs, j, l)
  }

  ghost predicate FactIs(graphs: seq<Graph>, ops: seq<Op>, l: Link, n: nat, fact: Bytes) {
    if fact == [] then NothingSaid(graphs, ops, l, n) else exists i :: LastSaid(graphs, ops, l, i, n, fact)
  }

  /** Something said, or a removal, or neither: what it does to what was last said. */
  lemma FactStep(graphs: seq<Graph>, ops: seq<Op>, l: Link, n: nat, fact: Bytes)
    requires n < |ops| < |graphs| && FactIs(graphs, ops, l, n, fact)
    ensures SaysSomething(ops[n], l) ==> FactIs(graphs, ops, l, n + 1, ops[n].claims[l].fact)
    ensures !SaysSomething(ops[n], l) && !GoneAfter(graphs, n, l) ==> FactIs(graphs, ops, l, n + 1, fact)
    ensures !SaysSomething(ops[n], l) && GoneAfter(graphs, n, l) ==> FactIs(graphs, ops, l, n + 1, [])
  {
    if SaysSomething(ops[n], l) {
      assert LastSaid(graphs, ops, l, n, n + 1, ops[n].claims[l].fact);
    } else if !GoneAfter(graphs, n, l) && fact != [] {
      var i :| LastSaid(graphs, ops, l, i, n, fact);
      assert LastSaid(graphs, ops, l, i, n + 1, fact);
    } else if fact == [] {
      forall i | 0 <= i < n + 1 && SaysSomething(ops[i], l) ensures exists j | i < j < n + 1 :: GoneAfter(graphs, j, l) {
        var j :| i < j < n && GoneAfter(graphs, j, l);
      }
    } else {
      forall i | 0 <= i < n + 1 && SaysSomething(ops[i], l) ensures exists j | i < j < n + 1 :: GoneAfter(graphs, j, l) {
        assert GoneAfter(graphs, n, l);
      }
    }
  }

  lemma FactAfter(g: Graph, op: Op, l: Link)
    requires Parsed(op)
    ensures var h := After(g, op);
            && (SaysSomething(op, l) ==> l in h.relations && h.relations[l].fact == op.claims[l].fact)
            && (!SaysSomething(op, l) && l in h.relations ==> h.relations[l].fact == RelationOf(g, l).fact)
            && (!SaysSomething(op, l) && l !in h.relations ==> RelationOf(h, l).fact == [])
  {
    hide AddSource, DropSource, Concerned, HasRelation;
    if op.Upsert? {
      UpsertedRelation(g, op.s, op.keys, op.claims, l);
    }
  }

  /** In every run a relation's fact is the last one that was given for it, and not empty, since it was created; empty if none was. */
  lemma {:induction false} FactIsLastSaid(graphs: seq<Graph>, ops: seq<Op>, l: Link, n: nat)
    requires IsRun(graphs, ops) && n <= |ops|
    ensures FactIs(graphs, ops, l, n, RelationOf(graphs[n], l).fact)
  {
    hide After, FactIs, Parsed;
    if n == 0 {
      NoFact(graphs, ops, l);
    } else {
      FactIsLastSaid(graphs, ops, l, n - 1);
      FactStep(graphs, ops, l, n - 1, RelationOf(graphs[n - 1], l).fact);
      FactAfter(graphs[n - 1], ops[n - 1], l);
    }
  }

  lemma NoFact(graphs: seq<Graph>, ops: seq<Op>, l: Link)
    ensures FactIs(graphs, ops, l, 0, [])
  {
  }
}
