/** Fitting retrieved knowledge into a budget of tokens. */
module ContextPacker {
  import opened ByteStrings
  import opened Sorting

  /** A retrieved entity, relation or passage: its score and the line it renders to (UTF-8). */
  datatype Item = Item(score: real, line: Bytes)

  datatype Section = Entities | Relations | Passages

  datatype Candidate = Candidate(section: Section, index: nat, score: real, tokens: nat, line: Bytes)

  const NEWLINE: byte := 10

  function Header(s: Section): Bytes {
    match s
    case Entities => Ascii("Entities:")
    case Relations => Ascii("Facts:")
    case Passages => Ascii("Notes:")
  }

  /** UTF-8 bytes over four, rounded up. */
  function EstimateTokens(text: Bytes): nat {
    (|text| + 3) / 4
  }

  function HeaderTokens(s: Section): nat {
    EstimateTokens(Header(s) + [NEWLINE])
  }

  // ----- candidates -----

  function Tagged(s: Section, items: seq<Item>): seq<Candidate> {
    seq(|items|, i requires 0 <= i < |items| =>
      Candidate(s, i, items[i].score, EstimateTokens(items[i].line + [NEWLINE]), items[i].line))
  }

  function All(entities: seq<Item>, relations: seq<Item>, passages: seq<Item>): seq<Candidate> {
    Tagged(Entities, entities) + Tagged(Relations, relations) + Tagged(Passages, passages)
  }

  predicate HasLine(cs: seq<Candidate>, line: Bytes) {
    exists c | c in cs :: c.line == line
  }

  /** The first candidate with each line. */
  function FirstOnes(cs: seq<Candidate>): seq<Candidate> {
    if cs == [] then []
    else
      var before, last := FirstOnes(cs[..|cs| - 1]), cs[|cs| - 1];
      if HasLine(before, last.line) then before else before + [last]
  }

  // ----- the greedy choice -----

  function In(cs: seq<Candidate>, s: Section): seq<Candidate> {
    if cs == [] then []
    else In(cs[..|cs| - 1], s) + if cs[|cs| - 1].section == s then [cs[|cs| - 1]] else []
  }

  datatype Plan = Plan(picked: seq<Candidate>, used: nat, truncated: bool)

  /** A line, and its section's header if it is the first there. */
  function Cost(p: Plan, c: Candidate): nat {
    c.tokens + if In(p.picked, c.section) == [] then HeaderTokens(c.section) else 0
  }

  function Greedy(cs: seq<Candidate>, budget: int): Plan {
    if cs == [] then Plan([], 0, false)
    else
      var p, c := Greedy(cs[..|cs| - 1], budget), cs[|cs| - 1];
      if p.used + Cost(p, c) > budget then p.(truncated := true)
      else Plan(p.picked + [c], p.used + Cost(p, c), p.truncated)
  }

  predicate AtLeast(a: Candidate, b: Candidate) {
    a.score >= b.score
  }

  function PlanOf(entities: seq<Item>, relations: seq<Item>, passages: seq<Item>, budget: int): Plan {
    Greedy(Sort(FirstOnes(All(entities, relations, passages)), AtLeast), budget)
  }

  // ----- rendering -----

  function Lines(cs: seq<Candidate>): Bytes {
    if cs == [] then [] else Lines(cs[..|cs| - 1]) + [NEWLINE] + cs[|cs| - 1].line
  }

  function Block(s: Section, cs: seq<Candidate>): Bytes {
    Header(s) + Lines(cs)
  }

  function Joined(context: Bytes, block: Bytes): Bytes {
    if context == [] then block else context + [NEWLINE] + block
  }

  function WithBlock(context: Bytes, picked: seq<Candidate>, s: Section): Bytes {
    if In(picked, s) == [] then context else Joined(context, Block(s, In(picked, s)))
  }

  function Context(picked: seq<Candidate>): Bytes {
    WithBlock(WithBlock(WithBlock([], picked, Entities), picked, Relations), picked, Passages)
  }

  /** The items whose index was picked, in their order. */
  function Kept(items: seq<Item>, picked: seq<Candidate>, s: Section): seq<Item> {
    if items == [] then []
    else
      var n := |items| - 1;
      Kept(items[..n], picked, s) + if exists c | c in picked :: c.section == s && c.index == n then [items[n]] else []
  }

  datatype Packed = Packed(entities: seq<Item>, relations: seq<Item>, passages: seq<Item>, context: Bytes, tokens: nat, truncated: bool)

  // ----- packing -----

  lemma FirstOnesSnoc(cs: seq<Candidate>, c: Candidate)
    ensures FirstOnes(cs + [c]) == if HasLine(FirstOnes(cs), c.line) then FirstOnes(cs) else FirstOnes(cs) + [c]
  {
    assert (cs + [c])[..|cs|] == cs;
  }

  lemma HasLineSnoc(cs: seq<Candidate>, c: Candidate, line: Bytes)
    ensures HasLine(cs + [c], line) <==> HasLine(cs, line) || c.line == line
  {
    assert forall x :: x in cs + [c] <==> x in cs || x == c;
  }

  /** Adds one section's lines that were not seen yet. */
  method AddSection(s: Section, items: seq<Item>, known: seq<Candidate>, seenLines: set<Bytes>, ghost before: seq<Candidate>)
    returns (candidates: seq<Candidate>, seen: set<Bytes>)
    requires known == FirstOnes(before) && forall line :: line in seenLines <==> HasLine(known, line)
    ensures candidates == FirstOnes(before + Tagged(s, items)) && forall line :: line in seen <==> HasLine(candidates, line)
  {
    hide HasLine, FirstOnes;
    candidates, seen := known, seenLines;
    ghost var tagged := Tagged(s, items);
    assert before + tagged[..0] == before;
    for i := 0 to |items|
      invariant candidates == FirstOnes(before + tagged[..i])
      invariant forall line :: line in seen <==> HasLine(candidates, line)
    {
      var line := items[i].line;
      var c := Candidate(s, i, items[i].score, EstimateTokens(line + [NEWLINE]), line);
      FirstOnesSnoc(before + tagged[..i], c);
      assert before + tagged[..i + 1] == before + tagged[..i] + [c];
      if line !in seen {
        seen := seen + {line};
        forall x ensures HasLine(candidates + [c], x) <==> HasLine(candidates, x) || c.line == x { HasLineSnoc(candidates, c, x); }
        candidates := candidates + [c];
      }
    }
    assert tagged[..|items|] == tagged;
  }

  lemma InSnoc(cs: seq<Candidate>, c: Candidate, s: Section)
    ensures In(cs + [c], s) == if c.section == s then In(cs, s) + [c] else In(cs, s)
  {
    assert (cs + [c])[..|cs|] == cs;
  }

  lemma GreedySnoc(cs: seq<Candidate>, i: nat, budget: int)
    requires i < |cs|
    ensures var p, c := Greedy(cs[..i], budget), cs[i];
            Greedy(cs[..i + 1], budget)
            == if p.used + Cost(p, c) > budget then p.(truncated := true)
               else Plan(p.picked + [c], p.used + Cost(p, c), p.truncated)
  {
    assert cs[..i + 1][..i] == cs[..i];
  }

  /** The choices so far, by section, are those of a plan. */
  ghost predicate Follows(chosen: map<Section, seq<Candidate>>, used: nat, truncated: bool, p: Plan) {
    used == p.used && truncated == p.truncated && forall s :: s in chosen && chosen[s] == In(p.picked, s)
  }

  /** Takes the candidate if it fits, with its section's header when it is the first there. */
  method Consider(c: Candidate, budget: int, known: map<Section, seq<Candidate>>, spent: nat, cut: bool, ghost p: Plan)
    returns (chosen: map<Section, seq<Candidate>>, used: nat, truncated: bool)
    requires Follows(known, spent, cut, p)
    ensures Follows(chosen, used, truncated, if p.used + Cost(p, c) > budget then p.(truncated := true)
                                             else Plan(p.picked + [c], p.used + Cost(p, c), p.truncated))
  {
    hide In, HeaderTokens;
    chosen, used, truncated := known, spent, cut;
    var cost := c.tokens + if chosen[c.section] == [] then HeaderTokens(c.section) else 0;
    if used + cost > budget {
      truncated := true;
      return;
    }
    forall s ensures In(p.picked + [c], s) == if c.section == s then In(p.picked, s) + [c] else In(p.picked, s) { InSnoc(p.picked, c, s); }
    chosen := chosen[c.section := chosen[c.section] + [c]];
    used := used + cost;
  }

  /** Chooses greedily, in the order given, what still fits. */
  method Choose(cs: seq<Candidate>, budget: int) returns (chosen: map<Section, seq<Candidate>>, used: nat, truncated: bool)
    ensures Follows(chosen, used, truncated, Greedy(cs, budget))
  {
    hide Greedy, Cost;
    chosen, used, truncated := map[Entities := [], Relations := [], Passages := []], 0, false;
    assert cs[..0] == [];
    GreedyStart(chosen, budget);
    for i := 0 to |cs|
      invariant Follows(chosen, used, truncated, Greedy(cs[..i], budget))
    {
      GreedySnoc(cs, i, budget);
      chosen, used, truncated := Consider(cs[i], budget, chosen, used, truncated, Greedy(cs[..i], budget));
    }
    assert cs[..|cs|] == cs;
  }

  lemma GreedyStart(chosen: map<Section, seq<Candidate>>, budget: int)
    requires chosen == map[Entities := [], Relations := [], Passages := []]
    ensures Follows(chosen, 0, false, Greedy([], budget))
  {
    forall s: Section ensures s in chosen && chosen[s] == In([], s) {
      match s case Entities => case Relations => case Passages =>
    }
  }

  /** Keeps the items whose index was chosen. */
  method KeepChosen(items: seq<Item>, chosen: seq<Candidate>, s: Section, ghost picked: seq<Candidate>) returns (kept: seq<Item>)
    requires chosen == In(picked, s)
    ensures kept == Kept(items, picked, s)
  {
    InIsIn(picked, s);
    var keep := set c | c in chosen :: c.index;
    kept := [];
    for i := 0 to |items|
      invariant kept == Kept(items[..i], picked, s)
    {
      assert items[..i + 1][..i] == items[..i];
      if i in keep {
        kept := kept + [items[i]];
      }
    }
    assert items[..|items|] == items;
  }

  lemma {:induction false} InIsIn(cs: seq<Candidate>, s: Section)
    ensures forall c :: c in In(cs, s) <==> c in cs && c.section == s
  {
    if cs != [] {
      InIsIn(cs[..|cs| - 1], s);
      assert cs == cs[..|cs| - 1] + [cs[|cs| - 1]];
    }
  }

  lemma LinesSnoc(cs: seq<Candidate>, i: nat)
    requires i < |cs|
    ensures Lines(cs[..i + 1]) == Lines(cs[..i]) + [NEWLINE] + cs[i].line
  {
    assert cs[..i + 1][..i] == cs[..i];
  }

  /** The header and the lines, each on a line of its own. */
  method RenderLines(s: Section, lines: seq<Candidate>) returns (block: Bytes)
    ensures block == Block(s, lines)
  {
    hide Header;
    block := Header(s);
    for i := 0 to |lines|
      invariant block == Header(s) + Lines(lines[..i])
    {
      LinesSnoc(lines, i);
      block := block + [NEWLINE] + lines[i].line;
    }
    assert lines[..|lines|] == lines;
  }

  /** The chosen lines, most relevant first: they were chosen in that order. */
  method RenderBlock(s: Section, chosen: seq<Candidate>) returns (block: Bytes)
    requires Sorted(chosen, AtLeast)
    ensures block == Block(s, chosen)
  {
    hide Block;
    SortIsIdempotent(chosen, AtLeast);
    block := RenderLines(s, Sort(chosen, AtLeast));
  }

  /** Packs what was retrieved: distinct lines, best first, as far as the budget goes. */
  method Pack(entities: seq<Item>, relations: seq<Item>, passages: seq<Item>, budget: int) returns (r: Packed)
    ensures var p := PlanOf(entities, relations, passages, budget);
            r == Packed(Kept(entities, p.picked, Entities), Kept(relations, p.picked, Relations), Kept(passages, p.picked, Passages),
                        Context(p.picked), EstimateTokens(Context(p.picked)), p.truncated)
  {
    assert FirstOnes([]) == [] && forall line :: !HasLine([], line);
    hide FirstOnes, Greedy, Tagged, Kept, In, Block, Sort, HasLine;
    var candidates, seen := AddSection(Entities, entities, [], {}, []);
    assert [] + Tagged(Entities, entities) == Tagged(Entities, entities);
    candidates, seen := AddSection(Relations, relations, candidates, seen, Tagged(Entities, entities));
    candidates, seen := AddSection(Passages, passages, candidates, seen, Tagged(Entities, entities) + Tagged(Relations, relations));
    var ordered := Sort(candidates, AtLeast);
    var chosen, used, truncated := Choose(ordered, budget);
    ghost var p := Greedy(ordered, budget);
    var keptEntities := KeepChosen(entities, chosen[Entities], Entities, p.picked);
    var keptRelations := KeepChosen(relations, chosen[Relations], Relations, p.picked);
    var keptPassages := KeepChosen(passages, chosen[Passages], Passages, p.picked);
    PickedInOrder(candidates, budget);
    var context := [];
    if chosen[Entities] != [] {
      var block := RenderBlock(Entities, chosen[Entities]);
      context := Joined(context, block);
    }
    if chosen[Relations] != [] {
      var block := RenderBlock(Relations, chosen[Relations]);
      context := Joined(context, block);
    }
    if chosen[Passages] != [] {
      var block := RenderBlock(Passages, chosen[Passages]);
      context := Joined(context, block);
    }
    r := Packed(keptEntities, keptRelations, keptPassages, context, if context == [] then 0 else EstimateTokens(context), truncated);
  }

  // ----- what is picked -----

  lemma AtLeastOrders()
    ensures TotalPreorder(AtLeast)
  {
  }

  lemma {:induction false} InKeepsOrder(cs: seq<Candidate>, s: Section)
    requires Sorted(cs, AtLeast)
    ensures Sorted(In(cs, s), AtLeast)
  {
    if cs != [] {
      var init, last := cs[..|cs| - 1], cs[|cs| - 1];
      InKeepsOrder(init, s);
      InIsIn(init, s);
      forall c | c in In(init, s) ensures AtLeast(c, last) {
        var i :| 0 <= i < |init| && init[i] == c;
        assert cs[i] == c;
      }
    }
  }

  /** The picks are some of the candidates, in their order; what is not picked did not fit, and still does not. */
  ghost predicate Picks(cs: seq<Candidate>, budget: int, p: Plan) {
    && (forall c | c in p.picked :: c in cs)
    && (Distinct(cs) ==> Distinct(p.picked))
    && (Sorted(cs, AtLeast) ==> Sorted(p.picked, AtLeast))
    && (forall c | c in cs && c !in p.picked :: p.used + Cost(p, c) > budget)
    && (p.truncated <==> |p.picked| < |cs|)
    && |p.picked| <= |cs|
    && (p.picked == [] || p.used <= budget)
  }

  lemma StillDoesNotFit(c: Candidate, x: Candidate, budget: int, p: Plan)
    requires p.used + Cost(p, x) > budget
    ensures var q := Plan(p.picked + [c], p.used + Cost(p, c), p.truncated);
            q.used + Cost(q, x) > budget
  {
    hide HeaderTokens;
    InSnoc(p.picked, c, x.section);
  }

  lemma PickOne(cs: seq<Candidate>, c: Candidate, budget: int, p: Plan)
    requires Picks(cs, budget, p) && p.used + Cost(p, c) <= budget
    ensures Picks(cs + [c], budget, Plan(p.picked + [c], p.used + Cost(p, c), p.truncated))
  {
    hide Cost;
    var all, q := cs + [c], Plan(p.picked + [c], p.used + Cost(p, c), p.truncated);
    forall x | x in all && x !in q.picked ensures q.used + Cost(q, x) > budget {
      assert x in cs && x !in p.picked;
      StillDoesNotFit(c, x, budget, p);
    }
    assert all[..|cs|] == cs && all[|cs|] == c;
    forall x | x in p.picked ensures Distinct(all) ==> x != c {
      var i :| 0 <= i < |cs| && cs[i] == x;
      assert all[i] == x;
    }
    forall x | x in p.picked ensures Sorted(all, AtLeast) ==> AtLeast(x, c) {
      var i :| 0 <= i < |cs| && cs[i] == x;
      assert all[i] == x;
    }
    assert Distinct(all) ==> Distinct(cs);
    assert Sorted(all, AtLeast) ==> Sorted(cs, AtLeast);
  }

  lemma LeaveOne(cs: seq<Candidate>, c: Candidate, budget: int, p: Plan)
    requires Picks(cs, budget, p) && p.used + Cost(p, c) > budget
    ensures Picks(cs + [c], budget, p.(truncated := true))
  {
    hide HeaderTokens;
    var all := cs + [c];
    assert all[..|cs|] == cs;
    assert Distinct(all) ==> Distinct(cs);
    assert Sorted(all, AtLeast) ==> Sorted(cs, AtLeast);
  }

  lemma GreedyLast(cs: seq<Candidate>, budget: int)
    requires cs != []
    ensures var p, c := Greedy(cs[..|cs| - 1], budget), cs[|cs| - 1];
            Greedy(cs, budget) == if p.used + Cost(p, c) > budget then p.(truncated := true)
                                  else Plan(p.picked + [c], p.used + Cost(p, c), p.truncated)
  {
    hide Cost;
  }

  lemma NoneToPick(budget: int)
    ensures Picks([], budget, Greedy([], budget))
  {
    hide Cost;
  }

  lemma {:induction false} GreedyPicks(cs: seq<Candidate>, budget: int)
    ensures Picks(cs, budget, Greedy(cs, budget))
  {
    hide Picks, Cost, Greedy;
    if cs == [] {
      NoneToPick(budget);
    } else {
      var init, c := cs[..|cs| - 1], cs[|cs| - 1];
      GreedyPicks(init, budget);
      assert cs == init + [c];
      GreedyLast(cs, budget);
      var p := Greedy(init, budget);
      if p.used + Cost(p, c) > budget {
        LeaveOne(init, c, budget, p);
      } else {
        PickOne(init, c, budget, p);
      }
    }
  }

  lemma PickedInOrder(candidates: seq<Candidate>, budget: int)
    ensures forall s :: Sorted(In(Greedy(Sort(candidates, AtLeast), budget).picked, s), AtLeast)
  {
    hide In, Greedy, Sort;
    AtLeastOrders();
    SortSorts(candidates, AtLeast);
    GreedyPicks(Sort(candidates, AtLeast), budget);
    forall s ensures Sorted(In(Greedy(Sort(candidates, AtLeast), budget).picked, s), AtLeast) {
      InKeepsOrder(Greedy(Sort(candidates, AtLeast), budget).picked, s);
    }
  }

  /** Every line once: the candidates' lines differ, and they are all the lines there are. */
  ghost predicate LinesDiffer(cs: seq<Candidate>) {
    forall i, j | 0 <= i < j < |cs| :: cs[i].line != cs[j].line
  }

  lemma {:induction false} FirstOnesAreAllLines(cs: seq<Candidate>)
    ensures LinesDiffer(FirstOnes(cs))
    ensures forall c | c in FirstOnes(cs) :: c in cs
    ensures forall line :: HasLine(FirstOnes(cs), line) <==> HasLine(cs, line)
  {
    if cs != [] {
      var init, last := cs[..|cs| - 1], cs[|cs| - 1];
      FirstOnesAreAllLines(init);
      assert cs == init + [last];
      forall line ensures HasLine(cs, line) <==> HasLine(init, line) || last.line == line {
        assert forall c :: c in cs <==> c in init || c == last;
      }
      var f := FirstOnes(init);
      forall line ensures HasLine(f + [last], line) <==> HasLine(f, line) || last.line == line {
        assert forall c :: c in f + [last] <==> c in f || c == last;
      }
      if !HasLine(f, last.line) {
        forall i, j | 0 <= i < j < |f + [last]| ensures (f + [last])[i].line != (f + [last])[j].line {
          assert (f + [last])[i] in f;
        }
      }
    }
  }

  // ----- within budget -----

  /** Bytes of the lines, each with its newline. */
  function Size(cs: seq<Candidate>): nat {
    if cs == [] then 0 else Size(cs[..|cs| - 1]) + |cs[|cs| - 1].line| + 1
  }

  /** Bytes of a section: its header and its lines, each with a newline; nothing if it has no line. */
  function SectionSize(picked: seq<Candidate>, s: Section): nat {
    if In(picked, s) == [] then 0 else |Header(s)| + 1 + Size(In(picked, s))
  }

  ghost predicate Measured(c: Candidate) {
    c.tokens == EstimateTokens(c.line + [NEWLINE])
  }

  function TotalSize(picked: seq<Candidate>): nat {
    SectionSize(picked, Entities) + SectionSize(picked, Relations) + SectionSize(picked, Passages)
  }

  lemma SizeSnoc(cs: seq<Candidate>, c: Candidate)
    ensures Size(cs + [c]) == Size(cs) + |c.line| + 1
  {
    assert (cs + [c])[..|cs|] == cs;
  }

  lemma OneSectionGrows(picked: seq<Candidate>, c: Candidate, s: Section)
    ensures SectionSize(picked + [c], s) == SectionSize(picked, s)
            + if c.section != s then 0 else |c.line| + 1 + if In(picked, s) == [] then |Header(s)| + 1 else 0
  {
    hide Header, Size;
    InSnoc(picked, c, s);
    SizeSnoc(In(picked, s), c);
    assert Size([]) == 0 by { NoSize(); }
  }

  lemma NoSize()
    ensures Size([]) == 0
  {
  }

  lemma SectionGrows(picked: seq<Candidate>, c: Candidate)
    ensures TotalSize(picked + [c]) == TotalSize(picked) + |c.line| + 1 + if In(picked, c.section) == [] then |Header(c.section)| + 1 else 0
  {
    hide SectionSize, Header, In;
    OneSectionGrows(picked, c, Entities);
    OneSectionGrows(picked, c, Relations);
    OneSectionGrows(picked, c, Passages);
  }

  /** Rounding up per line and per header costs at least the bytes used. */
  lemma {:induction false} TokensCoverSize(cs: seq<Candidate>, budget: int)
    requires forall c | c in cs :: Measured(c)
    ensures TotalSize(Greedy(cs, budget).picked) <= 4 * Greedy(cs, budget).used
  {
    if cs != [] {
      hide TotalSize, In, Header;
      var init, c := cs[..|cs| - 1], cs[|cs| - 1];
      TokensCoverSize(init, budget);
      assert Measured(c);
      var p := Greedy(init, budget);
      SectionGrows(p.picked, c);
    } else {
      assert TotalSize([]) == 0;
    }
  }

  lemma {:induction false} LinesLength(cs: seq<Candidate>)
    ensures |Lines(cs)| == Size(cs)
  {
    if cs != [] { LinesLength(cs[..|cs| - 1]); }
  }

  /** The context is a byte shorter than its parts: the last newline is not written. */
  lemma ContextLength(picked: seq<Candidate>)
    ensures |Context(picked)| == if TotalSize(picked) == 0 then 0 else TotalSize(picked) - 1
  {
    hide Lines, Size, In;
    LinesLength(In(picked, Entities));
    LinesLength(In(picked, Relations));
    LinesLength(In(picked, Passages));
  }

  lemma TaggedMeasured(s: Section, items: seq<Item>)
    ensures forall c | c in Tagged(s, items) :: Measured(c)
  {
  }

  lemma AllMeasured(entities: seq<Item>, relations: seq<Item>, passages: seq<Item>)
    ensures forall c | c in Sort(FirstOnes(All(entities, relations, passages)), AtLeast) :: Measured(c)
  {
    hide FirstOnes, Sort, Tagged, Measured;
    var all := All(entities, relations, passages);
    TaggedMeasured(Entities, entities);
    TaggedMeasured(Relations, relations);
    TaggedMeasured(Passages, passages);
    FirstOnesAreAllLines(all);
    SameElements(Sort(FirstOnes(all), AtLeast), FirstOnes(all));
  }

  /** The estimate of the whole context is within any non-negative budget, although costs are rounded per line and header. */
  lemma WithinBudget(entities: seq<Item>, relations: seq<Item>, passages: seq<Item>, budget: nat)
    ensures EstimateTokens(Context(PlanOf(entities, relations, passages, budget).picked)) <= budget
  {
    hide Greedy, Sort, FirstOnes, Context, TotalSize, All;
    var cs := Sort(FirstOnes(All(entities, relations, passages)), AtLeast);
    AllMeasured(entities, relations, passages);
    TokensCoverSize(cs, budget);
    ContextLength(Greedy(cs, budget).picked);
    GreedyPicks(cs, budget);
    assert TotalSize([]) == 0 by { NothingPicked(); }
  }

  lemma NothingPicked()
    ensures TotalSize([]) == 0
  {
  }

  lemma SameLineSameOne(cs: seq<Candidate>, c: Candidate, d: Candidate)
    requires LinesDiffer(cs) && c in cs && d in cs && c.line == d.line
    ensures c == d
  {
  }

  /** No line appears twice; `truncated` is set exactly when some retrieved line was left out; and a line
      left out does not fit beside what was picked. */
  lemma EachLineOnceOrTruncated(entities: seq<Item>, relations: seq<Item>, passages: seq<Item>, budget: int)
    ensures var p := PlanOf(entities, relations, passages, budget);
            var all := All(entities, relations, passages);
            && LinesDiffer(p.picked) && (forall c | c in p.picked :: c in all)
            && (p.truncated <==> exists c | c in all :: !HasLine(p.picked, c.line))
            && (forall c | c in FirstOnes(all) && !HasLine(p.picked, c.line) :: p.used + Cost(p, c) > budget)
  {
    hide Greedy, Sort, FirstOnes, All, Cost;
    var all := All(entities, relations, passages);
    var firsts := FirstOnes(all);
    var cs := Sort(firsts, AtLeast);
    var p := Greedy(cs, budget);
    FirstOnesAreAllLines(all);
    SameElements(cs, firsts);
    GreedyPicks(cs, budget);
    DifferentLines(firsts, cs, p.picked);
    if p.truncated {
      var c := Unpicked(cs, p.picked);
      assert c in all && !HasLine(p.picked, c.line);
    } else {
      AllPicked(cs, p.picked);
      forall c | c in all ensures HasLine(p.picked, c.line) {
        assert HasLine(all, c.line);
        var f :| f in firsts && f.line == c.line;
        assert f in cs;
      }
    }
  }

  /** Lines differ among candidates, so among picks, and a pick with a candidate's line is that candidate. */
  lemma DifferentLines(firsts: seq<Candidate>, cs: seq<Candidate>, picked: seq<Candidate>)
    requires LinesDiffer(firsts) && multiset(cs) == multiset(firsts)
    requires (forall c | c in picked :: c in cs) && (Distinct(cs) ==> Distinct(picked))
    ensures Distinct(cs) && Distinct(picked) && LinesDiffer(picked)
    ensures forall c | c in cs :: c in picked <==> HasLine(picked, c.line)
  {
    SameElements(cs, firsts);
    assert Distinct(firsts);
    DistinctPermutes(firsts, cs);
    forall c, d | c in cs && d in cs && c.line == d.line ensures c == d { SameLineSameOne(firsts, c, d); }
  }

  lemma {:induction false} FewerIsMissing(a: seq<Candidate>, b: seq<Candidate>)
    requires Distinct(a) && forall c | c in a :: c in b
    ensures |a| <= |b|
  {
    if a != [] {
      var x := a[|a| - 1];
      assert x in a;
      var i :| 0 <= i < |b| && b[i] == x;
      var rest := b[..i] + b[i + 1..];
      forall c | c in a[..|a| - 1] ensures c in rest {
        var j :| 0 <= j < |a| - 1 && a[j] == c;
        assert c != x && c in b;
        var k :| 0 <= k < |b| && b[k] == c;
        assert k < i || k > i;
        assert if k < i then rest[k] == c else rest[k - 1] == c;
      }
      FewerIsMissing(a[..|a| - 1], rest);
    }
  }

  lemma Unpicked(cs: seq<Candidate>, picked: seq<Candidate>) returns (c: Candidate)
    requires Distinct(cs) && |picked| < |cs|
    ensures c in cs && c !in picked
  {
    if forall x | x in cs :: x in picked {
      FewerIsMissing(cs, picked);
      assert false;
    }
    c :| c in cs && c !in picked;
  }

  lemma AllPicked(cs: seq<Candidate>, picked: seq<Candidate>)
    requires Distinct(picked) && |picked| == |cs| && forall c | c in picked :: c in cs
    ensures forall c | c in cs :: c in picked
  {
    forall c | c in cs ensures c in picked {
      if c !in picked {
        assert Distinct(picked + [c]);
        FewerIsMissing(picked + [c], cs);
      }
    }
  }

  // ----- what is chosen, and how it reads -----

  /** The estimate is the number of bytes over four, rounded up. */
  lemma EstimateIsCeiling(text: Bytes)
    ensures 4 * EstimateTokens(text) >= |text| > 4 * (EstimateTokens(text) - 1)
  {
  }

  /** Of lines that are the same, the one retrieved first is the candidate. */
  lemma {:induction false} FirstOnesComeFirst(cs: seq<Candidate>, c: Candidate)
    requires c in FirstOnes(cs)
    ensures exists i | 0 <= i < |cs| :: cs[i] == c && forall j | 0 <= j < i :: cs[j].line != c.line
  {
    if cs != [] {
      var n := |cs| - 1;
      var init, last := cs[..n], cs[n];
      if c in FirstOnes(init) {
        FirstOnesComeFirst(init, c);
        var i :| 0 <= i < n && init[i] == c && forall j | 0 <= j < i :: init[j].line != c.line;
        assert cs[i] == c && forall j | 0 <= j < i :: cs[j].line != c.line;
      } else {
        FirstOnesAreAllLines(init);
        assert c == last && !HasLine(init, c.line);
        forall j | 0 <= j < n ensures cs[j].line != c.line { assert init[j] in init; }
        assert cs[n] == c;
      }
    }
  }

  /** Candidates are considered by falling score, and equal ones in the order they were retrieved. */
  lemma ConsideredByScore(candidates: seq<Candidate>, c: Candidate)
    ensures var cs := Sort(candidates, AtLeast);
            && (forall i, j | 0 <= i < j < |cs| :: cs[i].score >= cs[j].score)
            && Tied(cs, AtLeast, c) == Tied(candidates, AtLeast, c)
  {
    AtLeastOrders();
    SortSorts(candidates, AtLeast);
    SortIsStable(candidates, AtLeast, c);
    var cs := Sort(candidates, AtLeast);
    forall i, j | 0 <= i < j < |cs| ensures cs[i].score >= cs[j].score { assert AtLeast(cs[i], cs[j]); }
  }

  /** The candidates taken. */
  function Taken(cs: seq<Candidate>, take: seq<bool>): seq<Candidate>
    requires |take| == |cs|
  {
    if cs == [] then []
    else
      var n := |cs| - 1;
      Taken(cs[..n], take[..n]) + if take[n] then [cs[n]] else []
  }

  /** What lines cost together: each its own tokens, and the first of a section its header's. */
  function Spent(cs: seq<Candidate>): nat {
    if cs == [] then 0
    else
      var n := |cs| - 1;
      Spent(cs[..n]) + cs[n].tokens + if exists c | c in cs[..n] :: c.section == cs[n].section then 0 else HeaderTokens(cs[n].section)
  }

  lemma SpentSnoc(cs: seq<Candidate>, c: Candidate)
    ensures Spent(cs + [c]) == Spent(cs) + c.tokens + if In(cs, c.section) == [] then HeaderTokens(c.section) else 0
  {
    assert (cs + [c])[..|cs|] == cs;
    InIsIn(cs, c.section);
    hide HeaderTokens;
    if In(cs, c.section) != [] {
      assert In(cs, c.section)[0] in In(cs, c.section);
    }
  }

  /** Each candidate is taken exactly when it fits beside those taken before it. */
  ghost predicate TakesWhatFits(cs: seq<Candidate>, budget: int, take: seq<bool>) {
    && |take| == |cs|
    && forall k | 0 <= k < |cs| :: FitsNext(cs, budget, take, k)
  }

  ghost predicate FitsNext(cs: seq<Candidate>, budget: int, take: seq<bool>, k: nat)
    requires k < |cs| == |take|
  {
    take[k] <==> Spent(Taken(cs[..k], take[..k]) + [cs[k]]) <= budget
  }

  lemma TakesOneMore(cs: seq<Candidate>, budget: int, take: seq<bool>)
    requires |take| == |cs| > 0 && TakesWhatFits(cs[..|cs| - 1], budget, take[..|cs| - 1]) && FitsNext(cs, budget, take, |cs| - 1)
    ensures TakesWhatFits(cs, budget, take)
  {
    hide Spent, Taken;
    var n := |cs| - 1;
    forall k | 0 <= k < n ensures FitsNext(cs, budget, take, k) {
      assert FitsNext(cs[..n], budget, take[..n], k);
      assert cs[..n][..k] == cs[..k] && take[..n][..k] == take[..k];
    }
  }

  /** The plan's decisions, and what they cost. */
  lemma {:induction false} GreedyDecides(cs: seq<Candidate>, budget: int) returns (take: seq<bool>)
    ensures TakesWhatFits(cs, budget, take)
    ensures Taken(cs, take) == Greedy(cs, budget).picked && Spent(Greedy(cs, budget).picked) == Greedy(cs, budget).used
  {
    if cs == [] {
      take := [];
    } else {
      hide Spent, In, HeaderTokens, Greedy, TakesWhatFits;
      var n := |cs| - 1;
      var before := GreedyDecides(cs[..n], budget);
      var p := Greedy(cs[..n], budget);
      GreedyLast(cs, budget);
      SpentSnoc(p.picked, cs[n]);
      assert |before| == n by { TakesEach(cs[..n], budget, before); }
      take := before + [p.used + Cost(p, cs[n]) <= budget];
      assert take[..n] == before;
      assert Taken(cs, take) == if take[n] then p.picked + [cs[n]] else p.picked;
      TakesOneMore(cs, budget, take);
    }
  }

  lemma TakesEach(cs: seq<Candidate>, budget: int, take: seq<bool>)
    requires TakesWhatFits(cs, budget, take)
    ensures |take| == |cs|
  {
  }

  lemma {:induction false} SpentGrows(cs: seq<Candidate>, take: seq<bool>, k: nat)
    requires |take| == |cs| && k <= |cs|
    ensures Spent(Taken(cs[..k], take[..k])) <= Spent(Taken(cs, take))
    decreases |cs|
  {
    if k == |cs| {
      assert cs[..k] == cs && take[..k] == take;
    } else {
      var n := |cs| - 1;
      var before := Taken(cs[..n], take[..n]);
      assert Taken(cs, take) == if take[n] then before + [cs[n]] else before;
      hide Spent, In, HeaderTokens, Taken;
      SpentGrows(cs[..n], take[..n], k);
      assert cs[..n][..k] == cs[..k] && take[..n][..k] == take[..k];
      SpentSnoc(before, cs[n]);
    }
  }

  /** No other choice within the budget is better where it first differs: the plan takes the most relevant line that any
      choice with the same lines before it could take. */
  lemma GreedyIsBestFirst(cs: seq<Candidate>, budget: int, take: seq<bool>, other: seq<bool>, k: nat)
    requires TakesWhatFits(cs, budget, take) && |other| == |cs| && k < |cs| && Spent(Taken(cs, other)) <= budget
    requires take[..k] == other[..k]
    ensures other[k] ==> take[k]
  {
    hide Spent;
    assert FitsNext(cs, budget, take, k);
    SpentGrows(cs, other, k + 1);
    assert cs[..k + 1][..k] == cs[..k] && other[..k + 1][..k] == other[..k];
    assert Taken(cs[..k + 1], other[..k + 1]) == Taken(cs[..k], take[..k]) + if other[k] then [cs[k]] else [];
  }

  // -- what is kept --

  /** The kept items are, in their order, those at the positions that were picked. */
  lemma {:induction false} KeptAreThosePicked(items: seq<Item>, picked: seq<Candidate>, s: Section) returns (at: seq<nat>)
    ensures |at| == |Kept(items, picked, s)| && (forall j, k | 0 <= j < k < |at| :: at[j] < at[k])
    ensures forall k | 0 <= k < |at| :: at[k] < |items| && Kept(items, picked, s)[k] == items[at[k]]
    ensures forall i: nat :: i in at <==> i < |items| && exists c | c in picked :: c.section == s && c.index == i
  {
    at := [];
    if items != [] {
      var n := |items| - 1;
      at := KeptAreThosePicked(items[..n], picked, s);
      if exists c | c in picked :: c.section == s && c.index == n {
        at := at + [n];
      }
    }
  }

  function ItemsOf(entities: seq<Item>, relations: seq<Item>, passages: seq<Item>, s: Section): seq<Item> {
    match s case Entities => entities case Relations => relations case Passages => passages
  }

  /** What is picked stands for the item at its position: the line shown and the score it was ranked by are that item's. */
  lemma PickedStandForItems(entities: seq<Item>, relations: seq<Item>, passages: seq<Item>, budget: int, c: Candidate)
    requires c in PlanOf(entities, relations, passages, budget).picked
    ensures var items := ItemsOf(entities, relations, passages, c.section);
            c.index < |items| && c.line == items[c.index].line && c.score == items[c.index].score
  {
    hide PlanOf, FirstOnes, Cost;
    EachLineOnceOrTruncated(entities, relations, passages, budget);
    assert c in All(entities, relations, passages);
  }

  // -- how it reads --

  function Join(lines: seq<Bytes>): Bytes {
    if lines == [] then [] else if |lines| == 1 then lines[0] else Join(lines[..|lines| - 1]) + [NEWLINE] + lines[|lines| - 1]
  }

  function LinesOf(cs: seq<Candidate>): seq<Bytes> {
    seq(|cs|, i requires 0 <= i < |cs| => cs[i].line)
  }

  /** A section's lines under its header; nothing if it has none. */
  function Headed(picked: seq<Candidate>, s: Section): seq<Bytes> {
    if In(picked, s) == [] then [] else [Header(s)] + LinesOf(In(picked, s))
  }

  lemma {:induction false} JoinOn(a: seq<Bytes>, b: seq<Bytes>)
    requires a != [] && b != []
    ensures Join(a + b) == Join(a) + [NEWLINE] + Join(b)
  {
    var n := |b| - 1;
    assert (a + b)[..|a + b| - 1] == a + b[..n] && (a + b)[|a + b| - 1] == b[n];
    if n == 0 {
      assert a + b[..0] == a;
    } else {
      JoinOn(a, b[..n]);
    }
  }

  lemma {:induction false} BlockJoins(header: Bytes, cs: seq<Candidate>)
    ensures header + Lines(cs) == Join([header] + LinesOf(cs))
  {
    if cs == [] {
      assert [header] + LinesOf(cs) == [header] && header + [] == header;
    } else {
      var n := |cs| - 1;
      BlockJoins(header, cs[..n]);
      var all := [header] + LinesOf(cs);
      assert all[..|all| - 1] == [header] + LinesOf(cs[..n]) && all[|all| - 1] == cs[n].line;
    }
  }

  lemma WithBlockJoins(lines: seq<Bytes>, picked: seq<Candidate>, s: Section)
    requires lines != [] ==> Join(lines) != []
    ensures WithBlock(Join(lines), picked, s) == Join(lines + Headed(picked, s))
    ensures lines + Headed(picked, s) != [] ==> Join(lines + Headed(picked, s)) != []
  {
    hide In, Join, Lines;
    var h := Headed(picked, s);
    if h == [] {
      assert lines + h == lines;
    } else {
      BlockJoins(Header(s), In(picked, s));
      assert |Header(s)| > 0;
      if lines == [] {
        assert lines + h == h && Join(lines) == [] by { JoinNothing(); }
      } else {
        JoinOn(lines, h);
      }
    }
  }

  lemma JoinNothing()
    ensures Join([]) == []
  {
  }

  /** The context is, joined by newlines, each section's header followed by its picked lines, in the order of the sections. */
  lemma ContextReads(picked: seq<Candidate>)
    ensures Context(picked) == Join(Headed(picked, Entities) + Headed(picked, Relations) + Headed(picked, Passages))
  {
    hide WithBlock, Headed, Join;
    JoinNothing();
    var e, r, p := Headed(picked, Entities), Headed(picked, Relations), Headed(picked, Passages);
    assert [] + e == e;
    WithBlockJoins([], picked, Entities);
    WithBlockJoins(e, picked, Relations);
    WithBlockJoins(e + r, picked, Passages);
  }

  /** Text cut at its newlines. */
  function Split(text: Bytes): (lines: seq<Bytes>)
    ensures lines != []
  {
    if text == [] then [[]]
    else
      var before := Split(text[..|text| - 1]);
      if text[|text| - 1] == NEWLINE then before + [[]] else before[..|before| - 1] + [before[|before| - 1] + [text[|text| - 1]]]
  }

  lemma {:induction false} SplitOn(text: Bytes, line: Bytes)
    requires NEWLINE !in line
    ensures Split(text + [NEWLINE] + line) == Split(text) + [line]
  {
    if line == [] {
      var t := text + [NEWLINE];
      assert t + line == t && t[..|t| - 1] == text;
    } else {
      var n := |line| - 1;
      SplitOn(text, line[..n]);
      var t := text + [NEWLINE] + line;
      assert t[..|t| - 1] == text + [NEWLINE] + line[..n] && line == line[..n] + [line[n]];
    }
  }

  lemma {:induction false} SplitPlain(line: Bytes)
    requires NEWLINE !in line
    ensures Split(line) == [line]
  {
    if line != [] {
      SplitPlain(line[..|line| - 1]);
      assert line == line[..|line| - 1] + [line[|line| - 1]];
    }
  }

  /** Joined lines are cut apart again, if none holds a newline. */
  lemma {:induction false} SplitJoin(lines: seq<Bytes>)
    requires lines != [] && forall i | 0 <= i < |lines| :: NEWLINE !in lines[i]
    ensures Split(Join(lines)) == lines
  {
    if |lines| == 1 {
      SplitPlain(lines[0]);
    } else {
      var n := |lines| - 1;
      SplitJoin(lines[..n]);
      SplitOn(Join(lines[..n]), lines[n]);
      assert lines == lines[..n] + [lines[n]];
    }
  }
}
