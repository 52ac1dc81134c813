/** The LALR(1) tables of the micro-assembler: grammar, action table and goto table,
    transcribed entry by entry. */
module MicroAsmTables {

  datatype Terminal =
    | End | Def | Rom | Macroop | LBrace | Id | Semi | Newline
    | Dot | Extern | LParen | RBrace | Params | Colon | RParen

  datatype Nonterminal =
    | Start | File | OptRomOrMacros | RomOrMacros | RomOrMacro | RomBlock | MacroopDef | Block
    | Statements | Statement | ContentOfStatement | EndOfStatement | Microop | Labels | Label | Directive

  datatype Symbol = T(t: Terminal) | N(n: Nonterminal)

  const ProductionCount: nat := 31

  /** Left-hand side of production p. */
  function Lhs(p: int): Nonterminal {
    match p
    case 0 => Start
    case 1 => File
    case 2 => OptRomOrMacros
    case 3 => OptRomOrMacros
    case 4 => RomOrMacros
    case 5 => RomOrMacros
    case 6 => RomOrMacro
    case 7 => RomOrMacro
    case 8 => RomBlock
    case 9 => MacroopDef
    case 10 => MacroopDef
    case 11 => Block
    case 12 => Statements
    case 13 => Statements
    case 14 => Statement
    case 15 => ContentOfStatement
    case 16 => ContentOfStatement
    case 17 => ContentOfStatement
    case 18 => EndOfStatement
    case 19 => EndOfStatement
    case 20 => Microop
    case 21 => Microop
    case 22 => Microop
    case 23 => Microop
    case 24 => Labels
    case 25 => Labels
    case 26 => Labels
    case 27 => Label
    case 28 => Label
    case 29 => Directive
    case _ => Directive
  }

  /** Length of the right-hand side of production p, as the table records it. */
  function Len(p: int): nat {
    if p == 2 || p == 17 then 0
    else if p == 5 || p == 13 || p == 14 || p == 20 || p == 23 || p == 25 || p == 26 || p == 27 || p == 29 then 2
    else if p == 11 || p == 22 || p == 28 || p == 30 then 3
    else if p == 8 then 4
    else if p == 10 then 5
    else if p == 9 then 7
    else 1
  }

  /** Right-hand side of production p. */
  function Rhs(p: int): seq<Symbol> {
    match p
    case 0 => [N(File)]
    case 1 => [N(OptRomOrMacros)]
    case 2 => []
    case 3 => [N(RomOrMacros)]
    case 4 => [N(RomOrMacro)]
    case 5 => [N(RomOrMacros), N(RomOrMacro)]
    case 6 => [N(RomBlock)]
    case 7 => [N(MacroopDef)]
    case 8 => [T(Def), T(Rom), N(Block), T(Semi)]
    case 9 => [T(Def), T(Macroop), T(Id), T(LParen), T(Id), T(RParen), T(Semi)]
    case 10 => [T(Def), T(Macroop), T(Id), N(Block), T(Semi)]
    case 11 => [T(LBrace), N(Statements), T(RBrace)]
    case 12 => [N(Statement)]
    case 13 => [N(Statements), N(Statement)]
    case 14 => [N(ContentOfStatement), N(EndOfStatement)]
    case 15 => [N(Microop)]
    case 16 => [N(Directive)]
    case 17 => []
    case 18 => [T(Newline)]
    case 19 => [T(Semi)]
    case 20 => [N(Labels), T(Id)]
    case 21 => [T(Id)]
    case 22 => [N(Labels), T(Id), T(Params)]
    case 23 => [T(Id), T(Params)]
    case 24 => [N(Label)]
    case 25 => [N(Labels), N(Label)]
    case 26 => [N(Labels), T(Newline)]
    case 27 => [T(Id), T(Colon)]
    case 28 => [T(Extern), T(Id), T(Colon)]
    case 29 => [T(Dot), T(Id)]
    case _ => [T(Dot), T(Id), T(Params)]
  }

  /** An entry of a table; where there is none the lookup finds nothing. */
  datatype Entry = NoEntry | Entry(n: int)

  /** The action table, by token and state: positive numbers shift, negative ones reduce
      by the production of that number, zero accepts. */
  function Action(q: int, t: Terminal): Entry {
    match t
    case End => (match q case 0 => Entry(-2) case 1 => Entry(0) case 2 => Entry(-1)
      case 3 => Entry(-3) case 4 => Entry(-4) case 5 => Entry(-6) case 6 => Entry(-7)
      case 8 => Entry(-5) case 14 => Entry(-8) case 40 => Entry(-10) case 45 => Entry(-9)
      case _ => NoEntry)
    case Def => (match q case 0 => Entry(7) case 3 => Entry(7) case 4 => Entry(-4)
      case 5 => Entry(-6) case 6 => Entry(-7) case 8 => Entry(-5) case 14 => Entry(-8)
      case 40 => Entry(-10) case 45 => Entry(-9) case _ => NoEntry)
    case Rom => (match q case 7 => Entry(9) case _ => NoEntry)
    case Macroop => (match q case 7 => Entry(10) case _ => NoEntry)
    case LBrace => (match q case 9 => Entry(12) case 13 => Entry(12) case _ => NoEntry)
    case Id => (match q case 10 => Entry(13) case 12 => Entry(21) case 15 => Entry(21)
      case 16 => Entry(-12) case 20 => Entry(32) case 22 => Entry(37) case 23 => Entry(-24)
      case 24 => Entry(38) case 25 => Entry(39) case 28 => Entry(-13) case 29 => Entry(-14)
      case 30 => Entry(-18) case 31 => Entry(-19) case 33 => Entry(-25) case 34 => Entry(-26)
      case 36 => Entry(-27) case 43 => Entry(-28) case _ => NoEntry)
    case Semi => (match q case 11 => Entry(14) case 12 => Entry(-17) case 15 => Entry(-17)
      case 16 => Entry(-12) case 17 => Entry(31) case 18 => Entry(-15) case 19 => Entry(-16)
      case 21 => Entry(-21) case 26 => Entry(40) case 27 => Entry(-11) case 28 => Entry(-13)
      case 29 => Entry(-14) case 30 => Entry(-18) case 31 => Entry(-19) case 32 => Entry(-20)
      case 35 => Entry(-23) case 37 => Entry(-29) case 41 => Entry(-22) case 42 => Entry(-30)
      case 44 => Entry(45) case _ => NoEntry)
    case Newline => (match q case 12 => Entry(-17) case 15 => Entry(-17) case 16 => Entry(-12)
      case 17 => Entry(30) case 18 => Entry(-15) case 19 => Entry(-16) case 20 => Entry(34)
      case 21 => Entry(-21) case 23 => Entry(-24) case 28 => Entry(-13) case 29 => Entry(-14)
      case 30 => Entry(-18) case 31 => Entry(-19) case 32 => Entry(-20) case 33 => Entry(-25)
      case 34 => Entry(-26) case 35 => Entry(-23) case 36 => Entry(-27) case 37 => Entry(-29)
      case 41 => Entry(-22) case 42 => Entry(-30) case 43 => Entry(-28) case _ => NoEntry)
    case Dot => (match q case 12 => Entry(22) case 15 => Entry(22) case 16 => Entry(-12)
      case 28 => Entry(-13) case 29 => Entry(-14) case 30 => Entry(-18) case 31 => Entry(-19)
      case _ => NoEntry)
    case Extern => (match q case 12 => Entry(24) case 15 => Entry(24) case 16 => Entry(-12)
      case 20 => Entry(24) case 23 => Entry(-24) case 28 => Entry(-13) case 29 => Entry(-14)
      case 30 => Entry(-18) case 31 => Entry(-19) case 33 => Entry(-25) case 34 => Entry(-26)
      case 36 => Entry(-27) case 43 => Entry(-28) case _ => NoEntry)
    case LParen => (match q case 13 => Entry(25) case _ => NoEntry)
    case RBrace => (match q case 15 => Entry(27) case 16 => Entry(-12) case 28 => Entry(-13)
      case 29 => Entry(-14) case 30 => Entry(-18) case 31 => Entry(-19) case _ => NoEntry)
    case Params => (match q case 21 => Entry(35) case 32 => Entry(41) case 37 => Entry(42)
      case _ => NoEntry)
    case Colon => (match q case 21 => Entry(36) case 32 => Entry(36) case 38 => Entry(43)
      case _ => NoEntry)
    case RParen => (match q case 39 => Entry(44) case _ => NoEntry)
  }

  /** The goto table, by nonterminal and state. */
  function Goto(q: int, n: Nonterminal): Entry {
    match n
    case Start => NoEntry
    case File => (match q case 0 => Entry(1) case _ => NoEntry)
    case OptRomOrMacros => (match q case 0 => Entry(2) case _ => NoEntry)
    case RomOrMacros => (match q case 0 => Entry(3) case _ => NoEntry)
    case RomOrMacro => (match q case 0 => Entry(4) case 3 => Entry(8) case _ => NoEntry)
    case RomBlock => (match q case 0 => Entry(5) case 3 => Entry(5) case _ => NoEntry)
    case MacroopDef => (match q case 0 => Entry(6) case 3 => Entry(6) case _ => NoEntry)
    case Block => (match q case 9 => Entry(11) case 13 => Entry(26) case _ => NoEntry)
    case Statements => (match q case 12 => Entry(15) case _ => NoEntry)
    case Statement => (match q case 12 => Entry(16) case 15 => Entry(28) case _ => NoEntry)
    case ContentOfStatement => (match q case 12 => Entry(17) case 15 => Entry(17) case _ => NoEntry)
    case EndOfStatement => (match q case 17 => Entry(29) case _ => NoEntry)
    case Microop => (match q case 12 => Entry(18) case 15 => Entry(18) case _ => NoEntry)
    case Labels => (match q case 12 => Entry(20) case 15 => Entry(20) case _ => NoEntry)
    case Label => (match q case 12 => Entry(23) case 15 => Entry(23) case 20 => Entry(33)
      case _ => NoEntry)
    case Directive => (match q case 12 => Entry(19) case 15 => Entry(19) case _ => NoEntry)
  }
}

/** What the table entries have to do with the grammar. Each state is annotated with the items
    (production, dot) it stands for; the annotation is checked against every table entry. */
module MicroAsmItems {
  import opened MicroAsmTables
  import LrTrees
  import LrDriver

  /** (production p, dot position d) is a kernel item of state q. */
  predicate Kernel(q: int, p: int, d: int) {
    match q
    case 1 => d == 1 && p == 0
    case 2 => d == 1 && p == 1
    case 3 => d == 1 && (p == 3 || p == 5)
    case 4 => d == 1 && p == 4
    case 5 => d == 1 && p == 6
    case 6 => d == 1 && p == 7
    case 7 => d == 1 && (p == 8 || p == 9 || p == 10)
    case 8 => d == 2 && p == 5
    case 9 => d == 2 && p == 8
    case 10 => d == 2 && (p == 9 || p == 10)
    case 11 => d == 3 && p == 8
    case 12 => d == 1 && p == 11
    case 13 => d == 3 && (p == 9 || p == 10)
    case 14 => d == 4 && p == 8
    case 15 => (d == 2 && p == 11) || (d == 1 && p == 13)
    case 16 => d == 1 && p == 12
    case 17 => d == 1 && p == 14
    case 18 => d == 1 && p == 15
    case 19 => d == 1 && p == 16
    case 20 => d == 1 && (p == 20 || p == 22 || p == 25 || p == 26)
    case 21 => d == 1 && (p == 21 || p == 23 || p == 27)
    case 22 => d == 1 && (p == 29 || p == 30)
    case 23 => d == 1 && p == 24
    case 24 => d == 1 && p == 28
    case 25 => d == 4 && p == 9
    case 26 => d == 4 && p == 10
    case 27 => d == 3 && p == 11
    case 28 => d == 2 && p == 13
    case 29 => d == 2 && p == 14
    case 30 => d == 1 && p == 18
    case 31 => d == 1 && p == 19
    case 32 => (d == 2 && (p == 20 || p == 22)) || (d == 1 && p == 27)
    case 33 => d == 2 && p == 25
    case 34 => d == 2 && p == 26
    case 35 => d == 2 && p == 23
    case 36 => d == 2 && p == 27
    case 37 => d == 2 && (p == 29 || p == 30)
    case 38 => d == 2 && p == 28
    case 39 => d == 5 && p == 9
    case 40 => d == 5 && p == 10
    case 41 => d == 3 && p == 22
    case 42 => d == 3 && p == 30
    case 43 => d == 3 && p == 28
    case 44 => d == 6 && p == 9
    case 45 => d == 7 && p == 9
    case _ => false
  }

  /** The symbol at position i of the right-hand side of production p. */
  function SymbolAt(p: int, i: int): Symbol {
    match p
    case 0 => N(File)
    case 1 => N(OptRomOrMacros)
    case 2 => T(End)
    case 3 => N(RomOrMacros)
    case 4 => N(RomOrMacro)
    case 5 => (match i case 0 => N(RomOrMacros) case _ => N(RomOrMacro))
    case 6 => N(RomBlock)
    case 7 => N(MacroopDef)
    case 8 => (match i case 0 => T(Def) case 1 => T(Rom) case 2 => N(Block) case _ => T(Semi))
    case 9 => (match i case 0 => T(Def) case 1 => T(Macroop) case 2 => T(Id) case 3 => T(LParen) case 4 => T(Id) case 5 => T(RParen) case _ => T(Semi))
    case 10 => (match i case 0 => T(Def) case 1 => T(Macroop) case 2 => T(Id) case 3 => N(Block) case _ => T(Semi))
    case 11 => (match i case 0 => T(LBrace) case 1 => N(Statements) case _ => T(RBrace))
    case 12 => N(Statement)
    case 13 => (match i case 0 => N(Statements) case _ => N(Statement))
    case 14 => (match i case 0 => N(ContentOfStatement) case _ => N(EndOfStatement))
    case 15 => N(Microop)
    case 16 => N(Directive)
    case 17 => T(End)
    case 18 => T(Newline)
    case 19 => T(Semi)
    case 20 => (match i case 0 => N(Labels) case _ => T(Id))
    case 21 => T(Id)
    case 22 => (match i case 0 => N(Labels) case 1 => T(Id) case _ => T(Params))
    case 23 => (match i case 0 => T(Id) case _ => T(Params))
    case 24 => N(Label)
    case 25 => (match i case 0 => N(Labels) case _ => N(Label))
    case 26 => (match i case 0 => N(Labels) case _ => T(Newline))
    case 27 => (match i case 0 => T(Id) case _ => T(Colon))
    case 28 => (match i case 0 => T(Extern) case 1 => T(Id) case _ => T(Colon))
    case 29 => (match i case 0 => T(Dot) case _ => T(Id))
    case _ => (match i case 0 => T(Dot) case 1 => T(Id) case _ => T(Params))
  }

  /** Recorded length and single symbols agree with the listed right-hand side. */
  lemma SymbolsOfRhs(p: int)
    requires 0 <= p < ProductionCount
    ensures |Rhs(p)| == Len(p) && forall i | 0 <= i < Len(p) :: Rhs(p)[i] == SymbolAt(p, i)
  {
  }

  /** `LrDriver.Started` of the listed tables. */
  predicate ListedStart(q: int, p: int) {
    if p == 0 then q == 0 else Goto(q, Lhs(p)).Entry?
  }

  /** `LrDriver.LinkOk` of the listed tables, symbol by symbol. */
  predicate ListedLink(q: int, x: Symbol, p: int, d: int) {
    && 0 <= p < ProductionCount && 0 < d <= Len(p) && SymbolAt(p, d - 1) == x
    && (if d == 1 then ListedStart(q, p) else Kernel(q, p, d - 1))
  }

  // ---------- every table entry is checked ----------

  lemma ShiftOnId(q: int, t: Terminal, p: int, d: int)
    requires t == Id
    requires Action(q, t).Entry? && Action(q, t).n > 0 && Kernel(Action(q, t).n, p, d)
    ensures ListedLink(q, T(t), p, d)
  {
    if q == 10 {
    } else if q == 12 {
    } else if q == 15 {
    } else if q == 20 {
    } else if q == 22 {
    } else if q == 24 {
    }
  }

  lemma ShiftOnSemi(q: int, t: Terminal, p: int, d: int)
    requires t == Semi
    requires Action(q, t).Entry? && Action(q, t).n > 0 && Kernel(Action(q, t).n, p, d)
    ensures ListedLink(q, T(t), p, d)
  {
    if q == 11 {
    } else if q == 17 {
    } else if q == 26 {
    }
  }

  lemma ShiftOnNewline(q: int, t: Terminal, p: int, d: int)
    requires t == Newline
    requires Action(q, t).Entry? && Action(q, t).n > 0 && Kernel(Action(q, t).n, p, d)
    ensures ListedLink(q, T(t), p, d)
  {
  }

  lemma ShiftOnExtern(q: int, t: Terminal, p: int, d: int)
    requires t == Extern
    requires Action(q, t).Entry? && Action(q, t).n > 0 && Kernel(Action(q, t).n, p, d)
    ensures ListedLink(q, T(t), p, d)
  {
    if q == 12 {
    } else if q == 15 {
    }
  }

  lemma ShiftOnDot(q: int, t: Terminal, p: int, d: int)
    requires t == Dot || t == Params
    requires Action(q, t).Entry? && Action(q, t).n > 0 && Kernel(Action(q, t).n, p, d)
    ensures ListedLink(q, T(t), p, d)
  {
    if q == 12 {
    } else if q == 15 {
    } else if q == 21 {
    } else if q == 32 {
    }
  }

  lemma ShiftOnDef(q: int, t: Terminal, p: int, d: int)
    requires t == Def || t == Rom
    requires Action(q, t).Entry? && Action(q, t).n > 0 && Kernel(Action(q, t).n, p, d)
    ensures ListedLink(q, T(t), p, d)
  {
    if q == 0 {
    } else if q == 3 {
    }
  }

  lemma ShiftOnMacroop(q: int, t: Terminal, p: int, d: int)
    requires t == Macroop || t == LBrace
    requires Action(q, t).Entry? && Action(q, t).n > 0 && Kernel(Action(q, t).n, p, d)
    ensures ListedLink(q, T(t), p, d)
  {
    if q == 7 {
    } else if q == 9 {
    }
  }

  lemma ShiftOnLParen(q: int, t: Terminal, p: int, d: int)
    requires t == LParen || t == RBrace
    requires Action(q, t).Entry? && Action(q, t).n > 0 && Kernel(Action(q, t).n, p, d)
    ensures ListedLink(q, T(t), p, d)
  {
  }

  lemma ShiftOnEnd(q: int, t: Terminal, p: int, d: int)
    requires t == End || t == Colon || t == RParen
    requires Action(q, t).Entry? && Action(q, t).n > 0 && Kernel(Action(q, t).n, p, d)
    ensures ListedLink(q, T(t), p, d)
  {
    if q == 21 {
    } else if q == 32 {
    } else if q == 38 {
    }
  }

  lemma ShiftLinks(q: int, t: Terminal, p: int, d: int)
    requires Action(q, t).Entry? && Action(q, t).n > 0 && Kernel(Action(q, t).n, p, d)
    ensures ListedLink(q, T(t), p, d)
  {
    match t
    case Id => ShiftOnId(q, t, p, d);
    case Semi => ShiftOnSemi(q, t, p, d);
    case Newline => ShiftOnNewline(q, t, p, d);
    case Extern => ShiftOnExtern(q, t, p, d);
    case Dot => ShiftOnDot(q, t, p, d);
    case Params => ShiftOnDot(q, t, p, d);
    case Def => ShiftOnDef(q, t, p, d);
    case Rom => ShiftOnDef(q, t, p, d);
    case Macroop => ShiftOnMacroop(q, t, p, d);
    case LBrace => ShiftOnMacroop(q, t, p, d);
    case LParen => ShiftOnLParen(q, t, p, d);
    case RBrace => ShiftOnLParen(q, t, p, d);
    case End => ShiftOnEnd(q, t, p, d);
    case Colon => ShiftOnEnd(q, t, p, d);
    case RParen => ShiftOnEnd(q, t, p, d);
  }

  lemma GotoLinks(q: int, n: Nonterminal, p: int, d: int)
    requires Goto(q, n).Entry? && Kernel(Goto(q, n).n, p, d)
    ensures ListedLink(q, N(n), p, d)
  {
    match n
    case Start => case File => case OptRomOrMacros => case RomOrMacros => case RomOrMacro =>
    case RomBlock => case MacroopDef => case Block => case Statements => case Statement =>
    case ContentOfStatement => case EndOfStatement => case Microop => case Labels =>
    case Label => case Directive =>
  }

  /** `LrDriver.ReduceOk` of the listed tables, by recorded length. */
  predicate ListedReduce(q: int, p: int) {
    && 0 < p < ProductionCount
    && (if Len(p) == 0 then Goto(q, Lhs(p)).Entry? else Kernel(q, p, Len(p)))
  }

  lemma ReduceOnId(q: int, t: Terminal)
    requires t == Id
    requires Action(q, t).Entry? && Action(q, t).n < 0
    ensures ListedReduce(q, -Action(q, t).n)
  {
  }

  lemma ReduceOnSemi(q: int, t: Terminal)
    requires t == Semi
    requires Action(q, t).Entry? && Action(q, t).n < 0
    ensures ListedReduce(q, -Action(q, t).n)
  {
  }

  lemma ReduceOnNewline(q: int, t: Terminal)
    requires t == Newline
    requires Action(q, t).Entry? && Action(q, t).n < 0
    ensures ListedReduce(q, -Action(q, t).n)
  {
  }

  lemma ReduceOnExtern(q: int, t: Terminal)
    requires t == Extern || t == Params || t == Colon
    requires Action(q, t).Entry? && Action(q, t).n < 0
    ensures ListedReduce(q, -Action(q, t).n)
  {
  }

  lemma ReduceOnDot(q: int, t: Terminal)
    requires t == Dot || t == Rom || t == Macroop || t == LBrace
    requires Action(q, t).Entry? && Action(q, t).n < 0
    ensures ListedReduce(q, -Action(q, t).n)
  {
  }

  lemma ReduceOnDef(q: int, t: Terminal)
    requires t == Def || t == LParen || t == RParen
    requires Action(q, t).Entry? && Action(q, t).n < 0
    ensures ListedReduce(q, -Action(q, t).n)
  {
  }

  lemma ReduceOnRBrace(q: int, t: Terminal)
    requires t == RBrace
    requires Action(q, t).Entry? && Action(q, t).n < 0
    ensures ListedReduce(q, -Action(q, t).n)
  {
  }

  lemma ReduceOnEnd(q: int, t: Terminal)
    requires t == End
    requires Action(q, t).Entry? && Action(q, t).n < 0
    ensures ListedReduce(q, -Action(q, t).n)
  {
  }

  lemma Reduces(q: int, t: Terminal)
    requires Action(q, t).Entry? && Action(q, t).n < 0
    ensures ListedReduce(q, -Action(q, t).n)
  {
    match t
    case Id => ReduceOnId(q, t);
    case Semi => ReduceOnSemi(q, t);
    case Newline => ReduceOnNewline(q, t);
    case Extern => ReduceOnExtern(q, t);
    case Params => ReduceOnExtern(q, t);
    case Colon => ReduceOnExtern(q, t);
    case Dot => ReduceOnDot(q, t);
    case Rom => ReduceOnDot(q, t);
    case Macroop => ReduceOnDot(q, t);
    case LBrace => ReduceOnDot(q, t);
    case Def => ReduceOnDef(q, t);
    case LParen => ReduceOnDef(q, t);
    case RParen => ReduceOnDef(q, t);
    case RBrace => ReduceOnRBrace(q, t);
    case End => ReduceOnEnd(q, t);
  }

  // ---------- a measure that every reduction lowers ----------

  function Rank(q: int): nat {
    if q == 0 || q == 16 then 18
    else if q == 12 || q == 15 then 17
    else if q == 5 || q == 6 || q == 30 || q == 31 then 4
    else if q == 4 || q == 29 then 3
    else if q == 3 || q == 21 || q == 28 then 2
    else if q == 2 || q == 18 || q == 19 || q == 23 then 1
    else 0
  }

  lemma RankDrops(q: int, p: int, q0: int)
    requires ListedReduce(q, p) && Goto(q0, Lhs(p)).Entry?
    ensures LrDriver.Weight + Rank(Goto(q0, Lhs(p)).n) < LrDriver.Weight * Len(p) + Rank(q)
  {
  }

  lemma AcceptOnlyAtEnd(q: int, t: Terminal)
    requires Action(q, t).Entry?
    ensures Action(q, t).n == 0 ==> t == End && Kernel(q, 0, 1)
    ensures Action(q, t).n > 0 ==> t != End
  {
  }

  lemma GotoIsNotStart(q: int, n: Nonterminal)
    requires Goto(q, n).Entry?
    ensures Goto(q, n).n > 0
  {
  }

  // ---------- what can begin and follow a nonterminal ----------

  predicate Nullable(n: Nonterminal) {
    n == Start || n == File || n == OptRomOrMacros || n == ContentOfStatement
  }

  predicate First(n: Nonterminal, b: Terminal) {
    match n
    case Start => b == Def
    case File => b == Def
    case OptRomOrMacros => b == Def
    case RomOrMacros => b == Def
    case RomOrMacro => b == Def
    case RomBlock => b == Def
    case MacroopDef => b == Def
    case Block => b == LBrace
    case Statements => b == Id || b == Dot || b == Extern || b == Semi || b == Newline
    case Statement => b == Id || b == Dot || b == Extern || b == Semi || b == Newline
    case ContentOfStatement => b == Id || b == Dot || b == Extern
    case EndOfStatement => b == Semi || b == Newline
    case Microop => b == Id || b == Extern
    case Labels => b == Id || b == Extern
    case Label => b == Id || b == Extern
    case Directive => b == Dot
  }

  predicate Follow(n: Nonterminal, b: Terminal) {
    match n
    case Start => b == End
    case File => b == End
    case OptRomOrMacros => b == End
    case RomOrMacros => b == End || b == Def
    case RomOrMacro => b == End || b == Def
    case RomBlock => b == End || b == Def
    case MacroopDef => b == End || b == Def
    case Block => b == Semi
    case Statements => b == Id || b == Dot || b == Extern || b == Semi || b == Newline || b == RBrace
    case Statement => b == Id || b == Dot || b == Extern || b == Semi || b == Newline || b == RBrace
    case EndOfStatement => b == Id || b == Dot || b == Extern || b == Semi || b == Newline || b == RBrace
    case ContentOfStatement => b == Semi || b == Newline
    case Microop => b == Semi || b == Newline
    case Directive => b == Semi || b == Newline
    case Labels => b == Id || b == Extern || b == Newline
    case Label => b == Id || b == Extern || b == Newline
  }

  /** The tables with their annotations. */
  const MicroAsm := LrTrees.Tables(Action, Goto, Lhs, Rhs, Kernel, Rank, Nullable, First, Follow)

  lemma LinkInTables(q: int, x: Symbol, p: int, d: int)
    requires MicroAsm.Next(q, x).Entry? && Kernel(MicroAsm.Next(q, x).n, p, d)
    ensures LrDriver.LinkOk(MicroAsm, q, x, p, d)
  {
    match x {
      case T(t) => ShiftLinks(q, t, p, d);
      case N(n) => GotoLinks(q, n, p, d);
    }
    assert ListedLink(q, x, p, d);
    SymbolsOfRhs(p);
  }

  lemma ReduceInTables(q: int, p: int)
    ensures ListedReduce(q, p) <==> LrDriver.ReduceOk(MicroAsm, q, p)
  {
    if 0 < p < ProductionCount { SymbolsOfRhs(p); }
  }

  lemma ActionsChecked()
    ensures LrDriver.ActionsOk(MicroAsm)
  {
    forall q, t | MicroAsm.action(q, t).Entry?
      ensures (MicroAsm.action(q, t).n > 0 ==> t != End)
           && (MicroAsm.action(q, t).n < 0 ==> LrDriver.ReduceOk(MicroAsm, q, -MicroAsm.action(q, t).n))
           && (MicroAsm.action(q, t).n == 0 ==> t == End && MicroAsm.kernel(q, 0, 1))
    {
      AcceptOnlyAtEnd(q, t);
      if Action(q, t).n < 0 {
        Reduces(q, t);
        ReduceInTables(q, -Action(q, t).n);
      }
    }
  }

  lemma RanksChecked()
    ensures LrDriver.RanksOk(MicroAsm)
  {
    forall q, p, q0 | LrDriver.ReduceOk(MicroAsm, q, p) && MicroAsm.goto(q0, MicroAsm.lhs(p)).Entry?
      ensures LrDriver.Weight + MicroAsm.rank(MicroAsm.goto(q0, MicroAsm.lhs(p)).n) <
              LrDriver.Weight * |MicroAsm.rhs(p)| + MicroAsm.rank(q)
    {
      ReduceInTables(q, p);
      SymbolsOfRhs(p);
      RankDrops(q, p, q0);
    }
  }

  /** The tables pass the check: the driver is sound for them and always ends. */
  lemma TablesChecked()
    ensures LrDriver.Checked(MicroAsm)
  {
    forall q, x, p, d | MicroAsm.Next(q, x).Entry? && MicroAsm.kernel(MicroAsm.Next(q, x).n, p, d)
      ensures LrDriver.LinkOk(MicroAsm, q, x, p, d)
    {
      LinkInTables(q, x, p, d);
    }
    ActionsChecked();
    RanksChecked();
    forall q, n | MicroAsm.goto(q, n).Entry? ensures MicroAsm.goto(q, n).n > 0 {
      GotoIsNotStart(q, n);
    }
  }
}
