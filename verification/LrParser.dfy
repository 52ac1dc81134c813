/** Table-driven LR parsing for any tables that pass a finite check: parse trees, the
    shift/reduce driver of the parser library, and the proof that it is sound and always ends. */
module LrTrees {
  import opened MicroAsmTables

  /** What the lexer delivers; the end marker is added by the driver. */
  type Token = t: Terminal | t != End witness Def

  /** Tables, grammar, and the annotations the check needs: the kernel items of the states, a
      rank that reductions lower, and what can begin and follow a nonterminal. */
  datatype Tables = Tables(
    action: (int, Terminal) -> Entry,
    goto: (int, Nonterminal) -> Entry,
    lhs: int -> Nonterminal,
    rhs: int -> seq<Symbol>,
    kernel: (int, int, int) -> bool,
    rank: int -> nat,
    nullable: Nonterminal -> bool,
    first: (Nonterminal, Terminal) -> bool,
    follow: (Nonterminal, Terminal) -> bool)
  {
    /** The transition of the automaton on a grammar symbol. */
    function Next(q: int, x: Symbol): Entry {
      match x
      case T(t) => if action(q, t).Entry? && action(q, t).n > 0 then action(q, t) else NoEntry
      case N(n) => goto(q, n)
    }
  }

  datatype Tree = Leaf(token: Terminal) | Node(p: int, kids: seq<Tree>)

  function Root(g: Tables, t: Tree): Symbol {
    match t
    case Leaf(token) => T(token)
    case Node(p, _) => N(g.lhs(p))
  }

  ghost predicate Rooted(g: Tables, ts: seq<Tree>, xs: seq<Symbol>) {
    |ts| == |xs| && forall i | 0 <= i < |ts| :: Root(g, ts[i]) == xs[i]
  }

  /** t is a parse tree of the grammar. */
  ghost predicate Derives(g: Tables, t: Tree) {
    match t
    case Leaf(token) => token != End
    case Node(p, kids) =>
      0 < p < ProductionCount && Rooted(g, kids, g.rhs(p)) && forall k | k in kids :: Derives(g, k)
  }

  ghost predicate AllDerive(g: Tables, ts: seq<Tree>) {
    forall t | t in ts :: Derives(g, t)
  }

  /** The tokens a tree stands for. */
  ghost function Yield(g: Tables, t: Tree): seq<Token>
    requires Derives(g, t)
    decreases t, 0
  {
    match t
    case Leaf(token) => [token]
    case Node(_, kids) => YieldAll(g, kids)
  }

  ghost function YieldAll(g: Tables, ts: seq<Tree>): seq<Token>
    requires AllDerive(g, ts)
    decreases ts
  {
    if ts == [] then [] else YieldAll(g, ts[..|ts| - 1]) + Yield(g, ts[|ts| - 1])
  }

  lemma YieldSnoc(g: Tables, ts: seq<Tree>, t: Tree)
    requires AllDerive(g, ts) && Derives(g, t)
    ensures AllDerive(g, ts + [t]) && YieldAll(g, ts + [t]) == YieldAll(g, ts) + Yield(g, t)
  {
    assert (ts + [t])[..|ts|] == ts;
  }

  lemma {:induction false} YieldAppend(g: Tables, a: seq<Tree>, b: seq<Tree>)
    requires AllDerive(g, a) && AllDerive(g, b)
    ensures AllDerive(g, a + b) && YieldAll(g, a + b) == YieldAll(g, a) + YieldAll(g, b)
  {
    if b == [] {
      assert a + b == a;
    } else {
      assert (a + b)[..|a + b| - 1] == a + b[..|b| - 1];
      YieldAppend(g, a, b[..|b| - 1]);
    }
  }
}

module LrDriver {
  import opened MicroAsmTables
  import opened LrTrees

  // ---------- what the tables have to satisfy ----------

  const Weight: nat := 16

  /** Before the dot moves past its first symbol, the production must have been started here. */
  ghost predicate Started(g: Tables, q: int, p: int) {
    if p == 0 then q == 0 else g.goto(q, g.lhs(p)).Entry?
  }

  /** The item (p, d) reached by the transition (q, x) comes from an item of q, or starts in q. */
  ghost predicate LinkOk(g: Tables, q: int, x: Symbol, p: int, d: int) {
    && 0 < d <= |g.rhs(p)| && g.rhs(p)[d - 1] == x
    && (if d == 1 then Started(g, q, p) else g.kernel(q, p, d - 1))
  }

  /** The production of a reduce entry is complete in its state, or empty and started there. */
  ghost predicate ReduceOk(g: Tables, q: int, p: int) {
    && 0 < p < ProductionCount
    && (if |g.rhs(p)| == 0 then g.goto(q, g.lhs(p)).Entry? else g.kernel(q, p, |g.rhs(p)|))
  }

  ghost predicate LinksOk(g: Tables) {
    forall q, x, p, d :: g.Next(q, x).Entry? && g.kernel(g.Next(q, x).n, p, d) ==> LinkOk(g, q, x, p, d)
  }

  ghost predicate ActionsOk(g: Tables) {
    forall q, t | g.action(q, t).Entry? ::
      && (g.action(q, t).n > 0 ==> t != End)
      && (g.action(q, t).n < 0 ==> ReduceOk(g, q, -g.action(q, t).n))
      && (g.action(q, t).n == 0 ==> t == End && g.kernel(q, 0, 1))
  }

  ghost predicate RanksOk(g: Tables) {
    forall q, p, q0 :: ReduceOk(g, q, p) && g.goto(q0, g.lhs(p)).Entry? ==>
      Weight + g.rank(g.goto(q0, g.lhs(p)).n) < Weight * |g.rhs(p)| + g.rank(q)
  }

  /** Only the bottom of a stack is state 0, and it has no kernel items. */
  ghost predicate StartOk(g: Tables) {
    && (forall q, n :: g.goto(q, n).Entry? ==> g.goto(q, n).n > 0)
    && (forall p, d :: !g.kernel(0, p, d))
  }

  ghost predicate Checked(g: Tables) {
    LinksOk(g) && ActionsOk(g) && RanksOk(g) && StartOk(g)
  }

  // ---------- the stacks ----------

  /** State stack, symbol stack (with the end marker at the bottom) and the tokens to come. */
  datatype Config = Config(states: seq<int>, syms: seq<Tree>, rest: seq<Token>)

  /** The stacks describe a path of the automaton from its start state. */
  ghost predicate Linked(g: Tables, states: seq<int>, syms: seq<Tree>) {
    && 1 <= |states| == |syms|
    && (if |states| == 1 then states[0] == 0
        else
          var n := |states| - 1;
          g.Next(states[n - 1], Root(g, syms[n])) == Entry(states[n]) && Linked(g, states[..n], syms[..n]))
  }

  lemma {:induction false} LinkedPrefix(g: Tables, states: seq<int>, syms: seq<Tree>, n: nat)
    requires Linked(g, states, syms) && 1 <= n <= |states|
    ensures Linked(g, states[..n], syms[..n])
  {
    if n == |states| {
      assert states[..n] == states && syms[..n] == syms;
    } else {
      var m := |states| - 1;
      LinkedPrefix(g, states[..m], syms[..m], n);
      assert states[..m][..n] == states[..n] && syms[..m][..n] == syms[..n];
    }
  }

  lemma RootedSnoc(g: Tables, syms: seq<Tree>, rhs: seq<Symbol>, d: int)
    requires 0 < d <= |rhs| && d <= |syms| && Root(g, syms[|syms| - 1]) == rhs[d - 1]
    requires d > 1 ==> Rooted(g, syms[..|syms| - 1][|syms| - d..], rhs[..d - 1])
    ensures Rooted(g, syms[|syms| - d..], rhs[..d])
  {
    var tail := syms[|syms| - d..];
    forall i | 0 <= i < d ensures Root(g, tail[i]) == rhs[i] {
      if i < d - 1 {
        assert tail[i] == syms[..|syms| - 1][|syms| - d..][i];
      }
    }
  }

  /** Below an item of the top state, the stack holds exactly the symbols before its dot,
      and below those the state in which the production was started. */
  lemma {:induction false} SymbolsBelow(g: Tables, states: seq<int>, syms: seq<Tree>, p: int, d: int)
    requires Checked(g) && Linked(g, states, syms) && g.kernel(states[|states| - 1], p, d)
    ensures 0 < d <= |g.rhs(p)| && d < |states|
    ensures Rooted(g, syms[|syms| - d..], g.rhs(p)[..d])
    ensures Started(g, states[|states| - 1 - d], p)
    decreases |states|
  {
    var n := |states| - 1;
    assert LinkOk(g, states[n - 1], Root(g, syms[n]), p, d);
    if d > 1 {
      SymbolsBelow(g, states[..n], syms[..n], p, d - 1);
      assert g.rhs(p)[..d - 1] == g.rhs(p)[..d][..d - 1];
    }
    RootedSnoc(g, syms, g.rhs(p), d);
  }

  // ---------- the driver ----------

  datatype Outcome = Accepted(tree: Tree) | SyntaxError(tokensLeft: nat)

  function Look(rest: seq<Token>): Terminal {
    if rest == [] then End else rest[0]
  }

  function Top(c: Config): int
    requires c.states != []
  {
    c.states[|c.states| - 1]
  }

  /** Put a tree on the stacks, by the transition on its root. */
  function Push(g: Tables, c: Config, t: Tree, rest: seq<Token>): Config
    requires c.states != [] && g.Next(Top(c), Root(g, t)).Entry?
  {
    Config(c.states + [g.Next(Top(c), Root(g, t)).n], c.syms + [t], rest)
  }

  /** Take n entries off the stacks. */
  function Pop(c: Config, n: nat): Config
    requires n <= |c.states| == |c.syms|
  {
    Config(c.states[..|c.states| - n], c.syms[..|c.syms| - n], c.rest)
  }

  function Handle(c: Config, n: nat): seq<Tree>
    requires n <= |c.syms|
  {
    c.syms[|c.syms| - n..]
  }

  ghost predicate Reachable(g: Tables, c: Config) {
    Linked(g, c.states, c.syms)
  }

  lemma PushIsReachable(g: Tables, c: Config, t: Tree, rest: seq<Token>)
    requires Reachable(g, c) && g.Next(Top(c), Root(g, t)).Entry?
    ensures Reachable(g, Push(g, c, t, rest))
  {
    var d, n := Push(g, c, t, rest), |c.states|;
    assert d.states[..n] == c.states && d.syms[..n] == c.syms;
  }

  /** Whenever the table says "reduce by p", the right-hand side of p is on the stack and
      the goto entry for its left-hand side exists. */
  lemma ReduceFindsHandle(g: Tables, c: Config, p: int)
    requires Checked(g) && Reachable(g, c) && ReduceOk(g, Top(c), p)
    ensures |g.rhs(p)| < |c.states| && Rooted(g, Handle(c, |g.rhs(p)|), g.rhs(p))
    ensures Reachable(g, Pop(c, |g.rhs(p)|)) && g.goto(Top(Pop(c, |g.rhs(p)|)), g.lhs(p)).Entry?
  {
    var k := |g.rhs(p)|;
    if k > 0 {
      SymbolsBelow(g, c.states, c.syms, p, k);
      assert g.rhs(p)[..k] == g.rhs(p);
    }
    LinkedPrefix(g, c.states, c.syms, |c.states| - k);
    assert Top(Pop(c, k)) == c.states[|c.states| - 1 - k];
  }

  ghost function Measure(g: Tables, states: seq<int>): nat
    requires states != []
  {
    Weight * |states| + g.rank(states[|states| - 1])
  }

  /** The configuration after reducing by p. */
  function Reduced(g: Tables, c: Config, p: int): Config
    requires Checked(g) && Reachable(g, c) && ReduceOk(g, Top(c), p)
  {
    ReduceFindsHandle(g, c, p);
    Push(g, Pop(c, |g.rhs(p)|), Node(p, Handle(c, |g.rhs(p)|)), c.rest)
  }

  lemma ReducedIsSmaller(g: Tables, c: Config, p: int)
    requires Checked(g) && Reachable(g, c) && ReduceOk(g, Top(c), p)
    ensures Reachable(g, Reduced(g, c, p)) && Reduced(g, c, p).rest == c.rest
    ensures Measure(g, Reduced(g, c, p).states) < Measure(g, c.states)
  {
    ReduceFindsHandle(g, c, p);
    var below := Pop(c, |g.rhs(p)|);
    PushIsReachable(g, below, Node(p, Handle(c, |g.rhs(p)|)), c.rest);
    assert g.goto(Top(below), g.lhs(p)).Entry?;
  }

  /** What the action table says. */
  datatype Move = Shift | Reduce(p: int) | Accept | Fail

  function Decide(g: Tables, q: int, t: Terminal): Move {
    var a := g.action(q, t);
    if a.NoEntry? then Fail else if a.n > 0 then Shift else if a.n < 0 then Reduce(-a.n) else Accept
  }

  /** The configuration after shifting the next token. */
  function Shifted(g: Tables, c: Config): Config
    requires c.states != [] && c.rest != [] && g.Next(Top(c), T(c.rest[0])).Entry?
  {
    Push(g, c, Leaf(c.rest[0]), c.rest[1..])
  }

  /** Run the driver to its end. It always ends: a shift consumes a token, and a reduction
      lowers the measure. */
  function Run(g: Tables, c: Config): Outcome
    requires Checked(g) && Reachable(g, c)
    decreases |c.rest|, Measure(g, c.states)
  {
    match Decide(g, Top(c), Look(c.rest))
    case Fail => SyntaxError(|c.rest|)
    case Accept => Accepted(c.syms[|c.syms| - 1])
    case Shift =>
      PushIsReachable(g, c, Leaf(c.rest[0]), c.rest[1..]);
      Run(g, Shifted(g, c))
    case Reduce(p) =>
      ReducedIsSmaller(g, c, p);
      Run(g, Reduced(g, c, p))
  }

  function Init(w: seq<Token>): Config {
    Config([0], [Leaf(End)], w)
  }

  // ---------- single steps of a run ----------

  lemma ShiftStep(g: Tables, c: Config)
    requires Checked(g) && Reachable(g, c) && Decide(g, Top(c), Look(c.rest)).Shift?
    ensures c.rest != [] && g.Next(Top(c), T(c.rest[0])).Entry?
    ensures Reachable(g, Shifted(g, c)) && Run(g, c) == Run(g, Shifted(g, c))
  {
    PushIsReachable(g, c, Leaf(c.rest[0]), c.rest[1..]);
  }

  lemma ReduceStep(g: Tables, c: Config, p: int)
    requires Checked(g) && Reachable(g, c) && Decide(g, Top(c), Look(c.rest)) == Reduce(p)
    ensures ReduceOk(g, Top(c), p) && Reachable(g, Reduced(g, c, p))
    ensures Reduced(g, c, p).rest == c.rest && Measure(g, Reduced(g, c, p).states) < Measure(g, c.states)
    ensures Run(g, c) == Run(g, Reduced(g, c, p))
  {
    ReducedIsSmaller(g, c, p);
  }

  lemma ReducedStacks(g: Tables, c: Config, p: int)
    requires Checked(g) && Reachable(g, c) && ReduceOk(g, Top(c), p)
    ensures |g.rhs(p)| < |c.states|
    ensures var n := |c.states| - |g.rhs(p)|;
            && g.goto(c.states[n - 1], g.lhs(p)).Entry?
            && Reduced(g, c, p) == Config(c.states[..n] + [g.goto(c.states[n - 1], g.lhs(p)).n],
                                          c.syms[..n] + [Node(p, c.syms[n..])], c.rest)
  {
    ReduceFindsHandle(g, c, p);
  }

  /** The driver as the parser library runs it: two stacks updated in a loop. */
  method Parse(g: Tables, w: seq<Token>) returns (r: Outcome)
    requires Checked(g)
    ensures r == Run(g, Init(w))
  {
    var states, syms, rest := [0], [Leaf(End)], w;
    while true
      invariant Reachable(g, Config(states, syms, rest))
      invariant Run(g, Config(states, syms, rest)) == Run(g, Init(w))
      decreases |rest|, Measure(g, states)
    {
      ghost var c := Config(states, syms, rest);
      var move := Decide(g, states[|states| - 1], Look(rest));
      if move.Fail? { return SyntaxError(|rest|); }
      if move.Accept? { return Accepted(syms[|syms| - 1]); }
      if move.Shift? {
        ShiftStep(g, c);
        states := states + [g.Next(states[|states| - 1], T(rest[0])).n];
        syms, rest := syms + [Leaf(rest[0])], rest[1..];
        assert Config(states, syms, rest) == Shifted(g, c);
      } else {
        ReduceStep(g, c, move.p);
        ReducedStacks(g, c, move.p);
        var n := |states| - |g.rhs(move.p)|;
        states := states[..n] + [g.goto(states[n - 1], g.lhs(move.p)).n];
        syms := syms[..n] + [Node(move.p, syms[n..])];
      }
    }
  }

  // ---------- soundness ----------

  ghost predicate Honest(g: Tables, c: Config) {
    c.syms != [] && AllDerive(g, c.syms[1..])
  }

  /** The tokens read so far, as the trees on the stack account for them. */
  ghost function Consumed(g: Tables, c: Config): seq<Token>
    requires Honest(g, c)
  {
    YieldAll(g, c.syms[1..])
  }

  lemma ConsumedPush(g: Tables, c: Config, t: Tree, rest: seq<Token>)
    requires Reachable(g, c) && Honest(g, c) && Derives(g, t) && g.Next(Top(c), Root(g, t)).Entry?
    ensures Honest(g, Push(g, c, t, rest))
    ensures Consumed(g, Push(g, c, t, rest)) == Consumed(g, c) + Yield(g, t)
  {
    assert Push(g, c, t, rest).syms[1..] == c.syms[1..] + [t];
    YieldSnoc(g, c.syms[1..], t);
  }

  lemma ConsumedReduce(g: Tables, c: Config, p: int)
    requires Checked(g) && Reachable(g, c) && Honest(g, c) && ReduceOk(g, Top(c), p)
    ensures Honest(g, Reduced(g, c, p)) && Consumed(g, Reduced(g, c, p)) == Consumed(g, c)
  {
    ReduceFindsHandle(g, c, p);
    var below, handle := Pop(c, |g.rhs(p)|), Handle(c, |g.rhs(p)|);
    assert c.syms[1..] == below.syms[1..] + handle;
    YieldAppend(g, below.syms[1..], handle);
    ConsumedPush(g, below, Node(p, handle), c.rest);
  }

  /** In an accepting configuration the stack holds one tree, and it is rooted in the start symbol. */
  lemma AcceptHoldsOneTree(g: Tables, c: Config)
    requires Checked(g) && Reachable(g, c) && Decide(g, Top(c), Look(c.rest)).Accept?
    ensures |c.syms| == 2 && c.rest == [] && |g.rhs(0)| > 0 && Root(g, c.syms[1]) == g.rhs(0)[0]
  {
    var n := |c.states|;
    SymbolsBelow(g, c.states, c.syms, 0, 1);
    assert c.syms[n - 1..][0] == c.syms[n - 1];
    LinkedPrefix(g, c.states, c.syms, n - 1);
    OnlyBottomIsStart(g, c.states[..n - 1], c.syms[..n - 1]);
  }

  lemma OnlyBottomIsStart(g: Tables, states: seq<int>, syms: seq<Tree>)
    requires Checked(g) && Linked(g, states, syms) && states[|states| - 1] == 0
    ensures |states| == 1
  {
  }

  /** If the driver accepts, it returns a parse tree of the tokens read and of those to come. */
  ghost predicate Sound(g: Tables, c: Config, out: Outcome)
    requires Honest(g, c)
  {
    out.Accepted? ==>
      && Derives(g, out.tree) && |g.rhs(0)| > 0 && Root(g, out.tree) == g.rhs(0)[0]
      && Yield(g, out.tree) == Consumed(g, c) + c.rest
  }

  lemma SoundAtAccept(g: Tables, c: Config)
    requires Checked(g) && Reachable(g, c) && Honest(g, c) && Decide(g, Top(c), Look(c.rest)).Accept?
    ensures Sound(g, c, Accepted(c.syms[|c.syms| - 1]))
  {
    AcceptHoldsOneTree(g, c);
    assert c.syms[1..] == [c.syms[1]];
    assert c.syms[1] in c.syms[1..];
    YieldSnoc(g, [], c.syms[1]);
  }

  lemma ReadOne(read: seq<Token>, rest: seq<Token>)
    requires rest != []
    ensures read + [rest[0]] + rest[1..] == read + rest
  {
  }

  lemma {:induction false} RunSound(g: Tables, c: Config)
    requires Checked(g) && Reachable(g, c) && Honest(g, c)
    ensures Sound(g, c, Run(g, c))
    decreases |c.rest|, Measure(g, c.states)
  {
    match Decide(g, Top(c), Look(c.rest)) {
      case Fail =>
      case Accept =>
        SoundAtAccept(g, c);
      case Shift =>
        ShiftStep(g, c);
        ConsumedPush(g, c, Leaf(c.rest[0]), c.rest[1..]);
        ReadOne(Consumed(g, c), c.rest);
        RunSound(g, Shifted(g, c));
      case Reduce(p) =>
        ReduceStep(g, c, p);
        ConsumedReduce(g, c, p);
        RunSound(g, Reduced(g, c, p));
    }
  }

  /** Soundness: what the tables accept has a parse tree, and the driver returns it. */
  lemma ParseSound(g: Tables, w: seq<Token>)
    requires Checked(g) && Run(g, Init(w)).Accepted?
    ensures var t := Run(g, Init(w)).tree;
            Derives(g, t) && |g.rhs(0)| > 0 && Root(g, t) == g.rhs(0)[0] && Yield(g, t) == w
  {
    assert Init(w).syms[1..] == [];
    RunSound(g, Init(w));
  }
}

/** Completeness: for tables that pass a further finite check, the driver accepts every
    sentence and returns its parse tree; so the grammar is unambiguous. */
module LrComplete {
  import opened MicroAsmTables
  import opened LrTrees
  import opened LrDriver

  /** Production p with its dot at d can be in progress in state q. */
  ghost predicate InProgress(g: Tables, q: int, p: int, d: int) {
    if d == 0 then Started(g, q, p) else g.kernel(q, p, d)
  }

  /** Token b can begin a string derived from xs. */
  ghost predicate Begins(g: Tables, xs: seq<Symbol>, b: Terminal) {
    xs != [] &&
    match xs[0]
    case T(t) => b == t
    case N(n) => g.first(n, b) || (g.nullable(n) && Begins(g, xs[1..], b))
  }

  /** The empty string can be derived from xs. */
  ghost predicate AllNullable(g: Tables, xs: seq<Symbol>) {
    xs == [] || (xs[0].N? && g.nullable(xs[0].n) && AllNullable(g, xs[1..]))
  }

  ghost predicate FirstOk(g: Tables) {
    forall p | 0 < p < ProductionCount ::
      && (AllNullable(g, g.rhs(p)) ==> g.nullable(g.lhs(p)))
      && forall b :: Begins(g, g.rhs(p), b) ==> g.first(g.lhs(p), b)
  }

  ghost predicate FollowOk(g: Tables) {
    forall p, d | 0 < p < ProductionCount && 0 <= d < |g.rhs(p)| && g.rhs(p)[d].N? ::
      && (forall b :: Begins(g, g.rhs(p)[d + 1..], b) ==> g.follow(g.rhs(p)[d].n, b))
      && (AllNullable(g, g.rhs(p)[d + 1..]) ==>
            forall b :: g.follow(g.lhs(p), b) ==> g.follow(g.rhs(p)[d].n, b))
  }

  /** A production in progress can go on with its next symbol. */
  ghost predicate AdvanceOk(g: Tables) {
    forall q, p, d | InProgress(g, q, p, d) && 0 <= p < ProductionCount && 0 <= d < |g.rhs(p)| ::
      g.Next(q, g.rhs(p)[d]).Entry? && g.kernel(g.Next(q, g.rhs(p)[d]).n, p, d + 1)
  }

  /** A completed production is reduced whenever what follows can follow it. */
  ghost predicate FinishOk(g: Tables) {
    forall q, p, b | InProgress(g, q, p, |g.rhs(p)|) && 0 < p < ProductionCount && g.follow(g.lhs(p), b) ::
      g.action(q, b) == Entry(-p)
  }

  ghost predicate TopOk(g: Tables) {
    && |g.rhs(0)| == 1 && g.rhs(0)[0].N? && g.follow(g.rhs(0)[0].n, End)
    && forall q :: g.kernel(q, 0, 1) ==> g.action(q, End) == Entry(0)
  }

  ghost predicate CheckedComplete(g: Tables) {
    Checked(g) && FirstOk(g) && FollowOk(g) && AdvanceOk(g) && FinishOk(g) && TopOk(g)
  }

  // ---------- what a tree can begin with ----------

  ghost predicate RootBegins(g: Tables, x: Symbol, b: Terminal) {
    match x
    case T(t) => b == t
    case N(n) => g.first(n, b)
  }

  lemma {:induction false} FirstOfTree(g: Tables, t: Tree)
    requires FirstOk(g) && Derives(g, t)
    ensures Yield(g, t) == [] ==> Root(g, t).N? && g.nullable(Root(g, t).n)
    ensures Yield(g, t) != [] ==> RootBegins(g, Root(g, t), Yield(g, t)[0])
    decreases t, 0
  {
    match t
    case Leaf(_) =>
    case Node(p, kids) => FirstOfTrees(g, kids, g.rhs(p));
  }

  lemma {:induction false} FirstOfTrees(g: Tables, ts: seq<Tree>, xs: seq<Symbol>)
    requires FirstOk(g) && AllDerive(g, ts) && Rooted(g, ts, xs)
    ensures YieldAll(g, ts) == [] ==> AllNullable(g, xs)
    ensures YieldAll(g, ts) != [] ==> Begins(g, xs, YieldAll(g, ts)[0])
    decreases ts
  {
    if ts != [] {
      var t, more := ts[0], ts[1..];
      FirstOfTree(g, t);
      FirstOfTrees(g, more, xs[1..]);
      YieldCons(g, ts);
    }
  }

  lemma YieldCons(g: Tables, ts: seq<Tree>)
    requires AllDerive(g, ts) && ts != []
    ensures AllDerive(g, ts[1..]) && YieldAll(g, ts) == Yield(g, ts[0]) + YieldAll(g, ts[1..])
  {
    assert ts == [ts[0]] + ts[1..];
    YieldAppend(g, [ts[0]], ts[1..]);
    assert YieldAll(g, [ts[0]]) == Yield(g, ts[0]) by {
      YieldSnoc(g, [], ts[0]);
      assert [] + [ts[0]] == [ts[0]];
    }
  }

  /** What follows the kid at position d is something that can follow its root. */
  lemma LookBehindKid(g: Tables, p: int, kids: seq<Tree>, d: nat, rest: seq<Token>)
    requires CheckedComplete(g) && Derives(g, Node(p, kids)) && d < |kids| && Root(g, kids[d]).N?
    requires g.follow(g.lhs(p), Look(rest))
    ensures AllDerive(g, kids[d + 1..])
    ensures g.follow(Root(g, kids[d]).n, Look(YieldAll(g, kids[d + 1..]) + rest))
  {
    var more, xs := kids[d + 1..], g.rhs(p)[d + 1..];
    assert AllDerive(g, more);
    FirstOfTrees(g, more, xs);
    var w := YieldAll(g, more);
    if w != [] {
      assert (w + rest)[0] == w[0];
    } else {
      assert w + rest == rest;
    }
  }

  // ---------- the driver reads a tree ----------

  /** With the yield of a tree to come, and then something that can follow its root, the
      driver ends up with the tree on its stack. */
  lemma {:induction false} RunTree(g: Tables, c: Config, t: Tree, rest: seq<Token>)
    requires CheckedComplete(g) && Reachable(g, c) && Derives(g, t)
    requires g.Next(Top(c), Root(g, t)).Entry? && c.rest == Yield(g, t) + rest
    requires Root(g, t).N? ==> g.follow(Root(g, t).n, Look(rest))
    ensures Reachable(g, Push(g, c, t, rest)) && Run(g, c) == Run(g, Push(g, c, t, rest))
    decreases t, 0
  {
    PushIsReachable(g, c, t, rest);
    match t
    case Leaf(token) =>
      assert c.rest[1..] == rest;
      ShiftStep(g, c);
    case Node(p, kids) =>
      assert c.rest == YieldAll(g, kids[0..]) + rest by { assert kids[0..] == kids; }
      RunKids(g, c, c, p, kids, 0, rest);
  }

  /** The stacks of c are those of c0 with the first d kids on top. */
  ghost predicate Holds(c0: Config, c: Config, kids: seq<Tree>, d: nat)
    requires d <= |kids|
  {
    && |c0.states| == |c0.syms| && |c.states| == |c0.states| + d
    && c.states[..|c0.states|] == c0.states && c.syms == c0.syms + kids[..d]
  }

  /** The same for a production whose first d kids are on the stack already. */
  lemma {:induction false} RunKids(g: Tables, c0: Config, c: Config, p: int, kids: seq<Tree>, d: nat, rest: seq<Token>)
    requires CheckedComplete(g) && Reachable(g, c0) && Reachable(g, c)
    requires Derives(g, Node(p, kids)) && g.goto(Top(c0), g.lhs(p)).Entry?
    requires d <= |kids| && Holds(c0, c, kids, d)
    requires InProgress(g, Top(c), p, d)
    requires AllDerive(g, kids[d..]) && c.rest == YieldAll(g, kids[d..]) + rest
    requires g.follow(g.lhs(p), Look(rest))
    ensures Reachable(g, Push(g, c0, Node(p, kids), rest))
    ensures Run(g, c) == Run(g, Push(g, c0, Node(p, kids), rest))
    decreases kids, |kids| - d
  {
    if d == |kids| {
      assert kids[d..] == [];
      FinishKids(g, c0, c, p, kids, rest);
    } else {
      var t, behind := SplitKid(g, p, kids, d, rest);
      CanAdvance(g, Top(c), p, d);
      RunTree(g, c, t, behind);
      var next := Push(g, c, t, behind);
      HoldsOneMore(g, c0, c, kids, d, behind);
      RunKids(g, c0, next, p, kids, d + 1, rest);
    }
  }

  lemma SplitKid(g: Tables, p: int, kids: seq<Tree>, d: nat, rest: seq<Token>)
    returns (t: Tree, behind: seq<Token>)
    requires CheckedComplete(g) && Derives(g, Node(p, kids)) && d < |kids|
    requires g.follow(g.lhs(p), Look(rest))
    ensures t == kids[d] && Derives(g, t) && Root(g, t) == g.rhs(p)[d]
    ensures AllDerive(g, kids[d..]) && AllDerive(g, kids[d + 1..])
    ensures behind == YieldAll(g, kids[d + 1..]) + rest
    ensures YieldAll(g, kids[d..]) + rest == Yield(g, t) + behind
    ensures Root(g, t).N? ==> g.follow(Root(g, t).n, Look(behind))
  {
    t := kids[d];
    assert AllDerive(g, kids[d..]);
    assert kids[d..][1..] == kids[d + 1..];
    YieldCons(g, kids[d..]);
    behind := YieldAll(g, kids[d + 1..]) + rest;
    if Root(g, t).N? {
      LookBehindKid(g, p, kids, d, rest);
    }
  }

  lemma CanAdvance(g: Tables, q: int, p: int, d: int)
    requires CheckedComplete(g) && InProgress(g, q, p, d) && 0 <= p < ProductionCount && 0 <= d < |g.rhs(p)|
    ensures g.Next(q, g.rhs(p)[d]).Entry? && g.kernel(g.Next(q, g.rhs(p)[d]).n, p, d + 1)
  {
  }

  lemma MustReduce(g: Tables, q: int, p: int, b: Terminal)
    requires CheckedComplete(g) && InProgress(g, q, p, |g.rhs(p)|) && 0 < p < ProductionCount
    requires g.follow(g.lhs(p), b)
    ensures Decide(g, q, b) == Reduce(p)
  {
    assert g.action(q, b) == Entry(-p);
  }

  lemma HoldsOneMore(g: Tables, c0: Config, c: Config, kids: seq<Tree>, d: nat, rest: seq<Token>)
    requires d < |kids| && Holds(c0, c, kids, d) && c.states != []
    requires g.Next(Top(c), Root(g, kids[d])).Entry?
    ensures Holds(c0, Push(g, c, kids[d], rest), kids, d + 1)
  {
    assert kids[..d + 1] == kids[..d] + [kids[d]];
  }

  lemma HoldsAll(c0: Config, c: Config, kids: seq<Tree>)
    requires Holds(c0, c, kids, |kids|)
    ensures var n := |c.states| - |kids|;
            n == |c0.states| && c.states[..n] == c0.states && c.syms[..n] == c0.syms && c.syms[n..] == kids
  {
    assert kids[..|kids|] == kids;
  }

  lemma FinishKids(g: Tables, c0: Config, c: Config, p: int, kids: seq<Tree>, rest: seq<Token>)
    requires CheckedComplete(g) && Reachable(g, c0) && Reachable(g, c)
    requires Derives(g, Node(p, kids)) && g.goto(Top(c0), g.lhs(p)).Entry?
    requires Holds(c0, c, kids, |kids|) && c.rest == rest
    requires InProgress(g, Top(c), p, |kids|) && g.follow(g.lhs(p), Look(rest))
    ensures Reachable(g, Push(g, c0, Node(p, kids), rest))
    ensures Run(g, c) == Run(g, Push(g, c0, Node(p, kids), rest))
  {
    MustReduce(g, Top(c), p, Look(rest));
    ReduceStep(g, c, p);
    ReducedIsPush(g, c0, c, p, kids);
  }

  lemma ReducedIsPush(g: Tables, c0: Config, c: Config, p: int, kids: seq<Tree>)
    requires Checked(g) && Reachable(g, c) && ReduceOk(g, Top(c), p) && |kids| == |g.rhs(p)|
    requires Holds(c0, c, kids, |kids|) && c0.states != []
    ensures g.goto(Top(c0), g.lhs(p)).Entry?
    ensures Reduced(g, c, p) == Push(g, c0, Node(p, kids), c.rest)
  {
    ReducedStacks(g, c, p);
    HoldsAll(c0, c, kids);
  }

  /** Completeness: the driver accepts the yield of every tree and returns that tree. */
  lemma ParseComplete(g: Tables, t: Tree)
    requires CheckedComplete(g) && Derives(g, t) && Root(g, t) == g.rhs(0)[0]
    ensures Run(g, Init(Yield(g, t))) == Accepted(t)
  {
    var c := Init(Yield(g, t));
    assert InProgress(g, 0, 0, 0);
    assert Yield(g, t) + [] == Yield(g, t);
    RunTree(g, c, t, []);
  }

  /** The driver decides the grammar, and no sentence has two parse trees. */
  lemma ParseDecides(g: Tables, w: seq<Token>)
    requires CheckedComplete(g)
    ensures Run(g, Init(w)).Accepted? <==>
            exists t :: Derives(g, t) && Root(g, t) == g.rhs(0)[0] && Yield(g, t) == w
  {
    if Run(g, Init(w)).Accepted? {
      ParseSound(g, w);
    }
    if t :| Derives(g, t) && Root(g, t) == g.rhs(0)[0] && Yield(g, t) == w {
      ParseComplete(g, t);
    }
  }

  lemma Unambiguous(g: Tables, t1: Tree, t2: Tree)
    requires CheckedComplete(g) && Derives(g, t1) && Derives(g, t2)
    requires Root(g, t1) == g.rhs(0)[0] == Root(g, t2) && Yield(g, t1) == Yield(g, t2)
    ensures t1 == t2
  {
    ParseComplete(g, t1);
    ParseComplete(g, t2);
  }
}
