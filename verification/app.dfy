/**
  The interactive loop of the application: read a line, treat "e", "c" and
  "p" (in any case) as exit, clear-cart and show-cart, and otherwise take
  the line as a product id. A known id goes into the cart and triggers the
  four engines, whose lists are merged, de-duplicated and sampled down to
  ten products.
 */
module App {
  import opened Common
  import opened Events
  import opened Matrices
  import opened Sampling
  import opened ShoppingCart
  import opened Popularity
  import opened AssociationRules
  import opened Loop
  import UserBased
  import ItemBased

  const DiffCategoryCount: nat := 5
  const SameCategoryCount: nat := 3
  const RuleCount: nat := 5
  const UserCount: nat := 5
  const ItemThreshold: real := 0.5
  const ItemCount: nat := 4
  const FinalCount: nat := 10

  /** `str.lower` on the letters A to Z. */
  function LowerChar(c: char): char {
    if 'A' <= c <= 'Z' then (c as int - 'A' as int + 'a' as int) as char else c
  }

  function Lower(s: string): (r: string)
    ensures |r| == |s| && forall i :: 0 <= i < |s| ==> r[i] == LowerChar(s[i])
  {
    seq(|s|, i requires 0 <= i < |s| => LowerChar(s[i]))
  }

  datatype Command = Exit | ClearCart | ShowCart | AddProduct(product: ProductId)

  /** The commands are checked first, so a line that spells a command is never read as a product id. */
  function Classify(line: string): (r: Command)
    ensures r == Exit <==> Lower(line) == "e"
    ensures r == ClearCart <==> Lower(line) == "c"
    ensures r == ShowCart <==> Lower(line) == "p"
    ensures r.AddProduct? ==> r.product == line
  {
    var key := Lower(line);
    if key == "e" then Exit
    else if key == "c" then ClearCart
    else if key == "p" then ShowCart
    else AddProduct(line)
  }

  /** A one-letter command is recognised in either case and nothing else spells it. */
  lemma CommandsIgnoreCase(line: string)
    ensures Classify(line) == Exit <==> line == "e" || line == "E"
    ensures Classify(line) == ClearCart <==> line == "c" || line == "C"
    ensures Classify(line) == ShowCart <==> line == "p" || line == "P"
  {
    if |line| == 1 {
      assert Lower(line) == [LowerChar(line[0])];
    }
  }

  /**
    What the loop reads once at start-up: the prepared events, the ranked
    association rules and, for each product, the correlations of every
    column of the count matrix with that product's column.
   */
  datatype Context = Context(events: seq<PreparedEvent>, rules: seq<Rule>, corr: ProductId -> ItemBased.Correlations)

  ghost predicate ValidContext(ctx: Context) {
    WellFormed(ctx.rules)
  }

  /** The random choices of one recommendation round. */
  datatype Randomness = Randomness(ruleOrder: seq<nat>, itemDraws: seq<nat>, finalDraws: seq<nat>)

  /** One line of input with the clock and random source at that moment. */
  datatype Input = Input(line: string, clock: Clock, rnd: Randomness)

  /** The four engine lists of one round. */
  datatype EngineLists = EngineLists(best: seq<ProductId>, rules: seq<ProductId>, user: seq<ProductId>, item: seq<ProductId>)

  function Concat(lists: EngineLists): seq<ProductId> {
    lists.best + lists.rules + lists.user + lists.item
  }

  /**
    The engines in the order the loop calls them, each with its defaults;
    the first one that raises ends the round with its error.
   */
  function RunEngines(ctx: Context, cart: Cart, p: ProductId, clock: Clock, rnd: Randomness): (r: Result<EngineLists>)
    requires ValidContext(ctx)
    ensures r.Err? <==>
      || Bestsellers(ctx.events, p, clock, DiffCategoryCount, SameCategoryCount).Err?
      || UserBased.Recommend(ctx.events, cart.items, UserCount).Err?
      || ItemBased.Recommend(CountMatrix(ctx.events).columns, p, ctx.corr(p), ItemThreshold, ItemCount, rnd.itemDraws).Err?
    ensures r.Ok? ==>
      && r.value.best == Bestsellers(ctx.events, p, clock, DiffCategoryCount, SameCategoryCount).value
      && r.value.rules == RecommendByRules(ctx.rules, p, RuleCount, rnd.ruleOrder)
      && r.value.user == UserBased.Recommend(ctx.events, cart.items, UserCount).value
      && r.value.item == ItemBased.Recommend(CountMatrix(ctx.events).columns, p, ctx.corr(p), ItemThreshold, ItemCount, rnd.itemDraws).value
  {
    match Bestsellers(ctx.events, p, clock, DiffCategoryCount, SameCategoryCount)
    case Err(e) => Err(e)
    case Ok(best) =>
      var rules := RecommendByRules(ctx.rules, p, RuleCount, rnd.ruleOrder);
      match UserBased.Recommend(ctx.events, cart.items, UserCount)
      case Err(e) => Err(e)
      case Ok(user) =>
        match ItemBased.Recommend(CountMatrix(ctx.events).columns, p, ctx.corr(p), ItemThreshold, ItemCount, rnd.itemDraws)
        case Err(e) => Err(e)
        case Ok(item) => Ok(EngineLists(best, rules, user, item))
  }

  /**
    `list(set(...))` of the concatenated engine lists, then
    `random.sample(..., 10)`, which raises when fewer than ten distinct
    products were proposed.
   */
  function MergeAndSample(lists: EngineLists, draws: seq<nat>): (r: Result<seq<ProductId>>)
    ensures r.Ok? <==> |Elements(Concat(lists))| >= FinalCount
    ensures r.Err? ==> r.error == SampleTooLarge
    ensures r.Ok? ==> |r.value| == FinalCount && Distinct(r.value)
    ensures r.Ok? ==> forall q :: q in r.value ==> q in Concat(lists)
  {
    var pool := Dedupe(Concat(lists));
    DistinctCardinality(pool);
    assert Elements(pool) == Elements(Concat(lists));
    Sample(pool, FinalCount, draws)
  }

  /** One recommendation round: the engines, then the merge and the final sample. */
  function Recommend(ctx: Context, cart: Cart, p: ProductId, clock: Clock, rnd: Randomness): (r: Result<seq<ProductId>>)
    requires ValidContext(ctx)
    ensures var engines := RunEngines(ctx, cart, p, clock, rnd);
      r.Err? <==> engines.Err? || |Elements(Concat(engines.value))| < FinalCount
    ensures RunEngines(ctx, cart, p, clock, rnd).Err? ==> r == Err(RunEngines(ctx, cart, p, clock, rnd).error)
    ensures RunEngines(ctx, cart, p, clock, rnd).Ok? && r.Err? ==> r.error == SampleTooLarge
    ensures r.Ok? ==>
      && RunEngines(ctx, cart, p, clock, rnd).Ok?
      && |r.value| == FinalCount && Distinct(r.value)
      && forall q :: q in r.value ==> q in Concat(RunEngines(ctx, cart, p, clock, rnd).value)
  {
    match RunEngines(ctx, cart, p, clock, rnd)
    case Err(e) => Err(e)
    case Ok(lists) => MergeAndSample(lists, rnd.finalDraws)
  }

  /**
    For a product of the catalogue the engines can only fail on the clock:
    the current hour must have been observed. No other error reaches the
    loop.
   */
  lemma KnownProductOnlyFailsOnClock(ctx: Context, cart: Cart, p: ProductId, clock: Clock, rnd: Randomness)
    requires ValidContext(ctx)
    requires p in Catalogue(ctx.events)
    ensures RunEngines(ctx, cart, p, clock, rnd).Err? <==> CurrentDayTime(ctx.events, clock).Err?
    ensures RunEngines(ctx, cart, p, clock, rnd).Err? ==> RunEngines(ctx, cart, p, clock, rnd).error == HourNotObserved
  {
    var k :| 0 <= k < |ctx.events| && ctx.events[k].product == p;
  }

  /** The just-added product is never proposed back by the user-based or the item-based engine. */
  lemma RoundSkipsAddedProduct(ctx: Context, cart: Cart, p: ProductId, clock: Clock, rnd: Randomness)
    requires ValidContext(ctx)
    ensures var r := RunEngines(ctx, Add(cart, p), p, clock, rnd);
      r.Ok? ==> p !in r.value.user && p !in r.value.item
  {
    if RunEngines(ctx, Add(cart, p), p, clock, rnd).Ok? {
      UserBased.RecommendAvoidsCart(ctx.events, Add(cart, p).items, UserCount);
      assert p in Add(cart, p).items;
    }
  }

  datatype Reply =
    | Bye(cart: seq<ProductId>)             // "e": the cart is printed and the loop ends
    | Cleared                               // "c"
    | Shown(cart: seq<ProductId>)           // "p"
    | Recommended(products: seq<ProductId>) // a known id: the ten products
    | InvalidId                             // an unknown id
    | NothingToRecommend                    // ValueError: fewer than ten products; the loop ends
    | Crashed(error: Error)                 // an engine raised something the loop does not catch

  /** The replies after which the loop does not read another line. */
  predicate Stops(reply: Reply) {
    reply.Bye? || reply == NothingToRecommend || reply.Crashed?
  }

  /** The reply, the cart after the line, and whether the loop goes on. */
  type Outcome = Turn<Reply, Cart>

  /** Every product has a label: `product_name` raises for none of them. */
  predicate Labelled(events: seq<PreparedEvent>, products: seq<ProductId>) {
    forall q :: q in products ==> ProductLabel(events, q).Ok?
  }

  /**
    A known id: append it to the cart, then recommend on the grown cart and
    print the label of each of the ten products. Too few products ends the
    loop with a message; an engine error, or a product without a label,
    ends it with a crash.
   */
  function AddAndRecommend(ctx: Context, cart: Cart, p: ProductId, clock: Clock, rnd: Randomness): (r: Outcome)
    requires ValidContext(ctx)
    requires p in Catalogue(ctx.events)
    ensures r.state == Add(cart, p)
    ensures r.running <==> r.reply.Recommended?
    ensures var rec := Recommend(ctx, Add(cart, p), p, clock, rnd);
      && (r.reply.Recommended? <==> rec.Ok? && Labelled(ctx.events, rec.value))
      && (r.reply.Recommended? ==> r.reply.products == rec.value)
      && (r.reply == NothingToRecommend <==> rec == Err(SampleTooLarge))
      && (r.reply == Crashed(HourNotObserved) <==> rec == Err(HourNotObserved))
      && (r.reply == Crashed(UnknownProduct) <==> rec.Ok? && !Labelled(ctx.events, rec.value))
    ensures r.reply.Recommended? || r.reply == NothingToRecommend
            || r.reply == Crashed(HourNotObserved) || r.reply == Crashed(UnknownProduct)
    ensures r.reply.Recommended? ==>
      |r.reply.products| == FinalCount && Distinct(r.reply.products)
      && forall q :: q in r.reply.products ==> q in Catalogue(ctx.events)
  {
    var added := Add(cart, p);
    KnownProductOnlyFailsOnClock(ctx, added, p, clock, rnd);
    match Recommend(ctx, added, p, clock, rnd)
    case Ok(products) =>
      if Labelled(ctx.events, products) then Turn(Recommended(products), added, true)
      else Turn(Crashed(UnknownProduct), added, false)
    case Err(SampleTooLarge) => Turn(NothingToRecommend, added, false)
    case Err(e) => Turn(Crashed(e), added, false)
  }

  /** One pass through the loop body. */
  function Step(ctx: Context, cart: Cart, input: Input): (r: Outcome)
    requires ValidContext(ctx)
    ensures Classify(input.line) == Exit ==> r == Turn(Bye(cart.items), cart, false)
    ensures Classify(input.line) == ClearCart ==> r.reply == Cleared && |r.state.items| == 0 && r.running
    ensures Classify(input.line) == ShowCart ==> r == Turn(Shown(cart.items), cart, true)
    ensures Classify(input.line).AddProduct? && input.line !in Catalogue(ctx.events) ==>
      r == Turn(InvalidId, cart, true)
    ensures Classify(input.line).AddProduct? && input.line in Catalogue(ctx.events) ==>
      var rec := Recommend(ctx, Add(cart, input.line), input.line, input.clock, input.rnd);
      && r.state == Add(cart, input.line)
      && (r.reply.Recommended? <==> rec.Ok? && Labelled(ctx.events, rec.value))
      && (r.reply.Recommended? ==> r.reply.products == rec.value)
      && (r.reply == NothingToRecommend <==> rec == Err(SampleTooLarge))
      && (r.reply.Crashed? <==> rec == Err(HourNotObserved) || (rec.Ok? && !Labelled(ctx.events, rec.value)))
    ensures r.running <==> !Stops(r.reply)
    ensures r.reply.Recommended? ==> |r.reply.products| == FinalCount && Distinct(r.reply.products)
  {
    match Classify(input.line)
    case Exit => Turn(Bye(cart.items), cart, false)
    case ClearCart => Turn(Cleared, Clear(cart), true)
    case ShowCart => Turn(Shown(cart.items), cart, true)
    case AddProduct(_) =>
      if input.line !in Catalogue(ctx.events) then Turn(InvalidId, cart, true)
      else AddAndRecommend(ctx, cart, input.line, input.clock, input.rnd)
  }

  /**
    The rule cache is fresh when it was mined from the current events:
    every consequent's first product is then a product of the catalogue.
   */
  ghost predicate FreshRules(ctx: Context) {
    forall rule :: rule in ctx.rules && |rule.consequent| > 0 ==> rule.consequent[0] in Catalogue(ctx.events)
  }

  /** With a fresh rule cache, the rule engine proposes only catalogue products. */
  lemma RuleProposalsAreKnown(ctx: Context, p: ProductId, order: seq<nat>)
    requires ValidContext(ctx) && FreshRules(ctx)
    ensures forall q :: q in RecommendByRules(ctx.rules, p, RuleCount, order) ==> q in Catalogue(ctx.events)
  {
    forall q | q in RecommendByRules(ctx.rules, p, RuleCount, order) ensures q in Catalogue(ctx.events) {
      var i :| 0 <= i < |ctx.rules| && Mentions(ctx.rules[i], p) && MatchesBefore(ctx.rules, p, i) < RuleScanLimit
               && ctx.rules[i].consequent[0] == q;
      assert ctx.rules[i] in ctx.rules;
    }
  }

  /** The item-based engine, run on the count matrix's columns, proposes only catalogue products. */
  lemma ItemProposalsAreKnown(ctx: Context, p: ProductId, draws: seq<nat>)
    ensures var r := ItemBased.Recommend(CountMatrix(ctx.events).columns, p, ctx.corr(p), ItemThreshold, ItemCount, draws);
      r.Ok? ==> forall q :: q in r.value ==> q in Catalogue(ctx.events)
  {
  }

  /** With a fresh rule cache, every engine proposes only catalogue products. */
  lemma EnginesProposeKnownProducts(ctx: Context, cart: Cart, p: ProductId, clock: Clock, rnd: Randomness)
    requires ValidContext(ctx) && FreshRules(ctx)
    ensures var engines := RunEngines(ctx, cart, p, clock, rnd);
      engines.Ok? ==> forall q :: q in Concat(engines.value) ==> q in Catalogue(ctx.events)
  {
    BestsellersAreKnown(ctx.events, p, clock, DiffCategoryCount, SameCategoryCount);
    RuleProposalsAreKnown(ctx, p, rnd.ruleOrder);
    UserBased.RecommendIsKnown(ctx.events, cart.items, UserCount);
    ItemProposalsAreKnown(ctx, p, rnd.itemDraws);
  }

  /** With a fresh rule cache, printing the ten labels never crashes the loop. */
  lemma FreshRulesLabelEveryProduct(ctx: Context, cart: Cart, p: ProductId, clock: Clock, rnd: Randomness)
    requires ValidContext(ctx) && FreshRules(ctx)
    requires p in Catalogue(ctx.events)
    ensures AddAndRecommend(ctx, cart, p, clock, rnd).reply != Crashed(UnknownProduct)
  {
    EnginesProposeKnownProducts(ctx, Add(cart, p), p, clock, rnd);
  }

  /** The loop body, with what the loop read at start-up. */
  function Body(ctx: Context): (Cart, Input) -> Outcome
    requires ValidContext(ctx)
  {
    (c: Cart, x: Input) => Step(ctx, c, x)
  }

  /** The cart after the first `n` lines, each handled by one pass through the loop body. */
  ghost function CartAfter(ctx: Context, cart: Cart, inputs: seq<Input>, n: nat): Cart
    requires ValidContext(ctx)
    requires n <= |inputs|
  {
    StateAfter(Body(ctx), cart, inputs, n)
  }

  /** The replies of a run of the loop and the cart it ends with. */
  type Session = Trace<Reply, Cart>

  /**
    The loop: it reads every line unless a reply stops it, and it reads no
    more lines than it is given. `RunFollowsSteps` says what each reply is.
   */
  function Run(ctx: Context, cart: Cart, inputs: seq<Input>): (r: Session)
    requires ValidContext(ctx)
    ensures |r.replies| <= |inputs|
    ensures r.running ==> |r.replies| == |inputs|
    ensures |inputs| == 0 ==> r == Trace([], cart, true)
  {
    Drive(Body(ctx), cart, inputs)
  }

  /**
    Reply `i` of a run is `Step`'s reply to line `i` on the cart the earlier
    lines left, and the run ends with the cart its replies left.
   */
  lemma RunFollowsSteps(ctx: Context, cart: Cart, inputs: seq<Input>)
    requires ValidContext(ctx)
    ensures var r := Run(ctx, cart, inputs);
      forall i :: 0 <= i < |r.replies| ==> r.replies[i] == Step(ctx, CartAfter(ctx, cart, inputs, i), inputs[i]).reply
    ensures var r := Run(ctx, cart, inputs);
      r.state == CartAfter(ctx, cart, inputs, |r.replies|)
  {
    DriveFollowsBody(Body(ctx), cart, inputs);
  }

  /** Every product in the cart is a product of the catalogue. */
  ghost predicate CartIsKnown(ctx: Context, cart: Cart) {
    forall q :: q in cart.items ==> q in Catalogue(ctx.events)
  }

  /** An unknown id never enters the cart, over any run of the loop. */
  lemma RunKeepsCartKnown(ctx: Context, cart: Cart, inputs: seq<Input>)
    requires ValidContext(ctx)
    requires CartIsKnown(ctx, cart)
    ensures CartIsKnown(ctx, Run(ctx, cart, inputs).state)
  {
    var known := (c: Cart) => CartIsKnown(ctx, c);
    forall c, x | known(c) ensures known(Body(ctx)(c, x).state) {
      if Classify(x.line).AddProduct? && x.line in Catalogue(ctx.events) {
        assert Step(ctx, c, x).state.items == c.items + [x.line];
      }
    }
    DriveKeeps(Body(ctx), known, cart, inputs);
  }

  /** A run stops only on "e", on too few products to sample, or on a crash; its last reply says which. */
  lemma RunStopsOnlyOnEnd(ctx: Context, cart: Cart, inputs: seq<Input>)
    requires ValidContext(ctx)
    ensures var r := Run(ctx, cart, inputs);
      !r.running ==> |r.replies| > 0 && Stops(r.replies[|r.replies| - 1])
    ensures var r := Run(ctx, cart, inputs);
      forall i :: 0 <= i < |r.replies| - 1 ==> !Stops(r.replies[i])
  {
    BodyStopsExactly(ctx);
    DriveStopsOnlyOnEnd(Body(ctx), Stops, cart, inputs);
  }

  /** The loop body goes on exactly after the replies that do not stop the loop. */
  lemma BodyStopsExactly(ctx: Context)
    requires ValidContext(ctx)
    ensures forall c, x :: Body(ctx)(c, x).running <==> !Stops(Body(ctx)(c, x).reply)
  {
    forall c, x ensures Body(ctx)(c, x).running <==> !Stops(Body(ctx)(c, x).reply) {
      assert Body(ctx)(c, x) == Step(ctx, c, x);
    }
  }
}
