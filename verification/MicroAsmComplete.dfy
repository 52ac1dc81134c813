/** The further check of the micro-assembler's tables, and what follows for its grammar. */
module MicroAsmGrammar {
  import opened MicroAsmTables
  import opened MicroAsmItems
  import opened LrTrees
  import opened LrDriver
  import opened LrComplete

  // ---------- productions go on, and are reduced in time ----------

  lemma AdvanceFromStart0(q: int, p: int)
    requires 0 <= p < 13 && ListedStart(q, p) && Len(p) > 0
    ensures MicroAsm.Next(q, SymbolAt(p, 0)).Entry? && Kernel(MicroAsm.Next(q, SymbolAt(p, 0)).n, p, 1)
  {
  }

  lemma AdvanceFromStart13(q: int, p: int)
    requires 13 <= p < 20 && ListedStart(q, p) && Len(p) > 0
    ensures MicroAsm.Next(q, SymbolAt(p, 0)).Entry? && Kernel(MicroAsm.Next(q, SymbolAt(p, 0)).n, p, 1)
  {
  }

  lemma AdvanceFromStart20(q: int, p: int)
    requires 20 <= p < ProductionCount && ListedStart(q, p) && Len(p) > 0
    ensures MicroAsm.Next(q, SymbolAt(p, 0)).Entry? && Kernel(MicroAsm.Next(q, SymbolAt(p, 0)).n, p, 1)
  {
  }

  lemma AdvanceFromStart(q: int, p: int)
    requires 0 <= p < ProductionCount && ListedStart(q, p) && Len(p) > 0
    ensures MicroAsm.Next(q, SymbolAt(p, 0)).Entry? && Kernel(MicroAsm.Next(q, SymbolAt(p, 0)).n, p, 1)
  {
    if p < 13 {
      AdvanceFromStart0(q, p);
    } else if p < 20 {
      AdvanceFromStart13(q, p);
    } else {
      AdvanceFromStart20(q, p);
    }
  }

  lemma AdvanceFromKernel0(q: int, p: int, d: int)
    requires 0 <= p < 13 && Kernel(q, p, d) && 0 < d < Len(p)
    ensures MicroAsm.Next(q, SymbolAt(p, d)).Entry? && Kernel(MicroAsm.Next(q, SymbolAt(p, d)).n, p, d + 1)
  {
  }

  lemma AdvanceFromKernel13(q: int, p: int, d: int)
    requires 13 <= p < ProductionCount && Kernel(q, p, d) && 0 < d < Len(p)
    ensures MicroAsm.Next(q, SymbolAt(p, d)).Entry? && Kernel(MicroAsm.Next(q, SymbolAt(p, d)).n, p, d + 1)
  {
  }

  lemma AdvanceFromKernel(q: int, p: int, d: int)
    requires 0 <= p < ProductionCount && Kernel(q, p, d) && 0 < d < Len(p)
    ensures MicroAsm.Next(q, SymbolAt(p, d)).Entry? && Kernel(MicroAsm.Next(q, SymbolAt(p, d)).n, p, d + 1)
  {
    if p < 13 {
      AdvanceFromKernel0(q, p, d);
    } else {
      AdvanceFromKernel13(q, p, d);
    }
  }

  lemma AdvanceChecked()
    ensures AdvanceOk(MicroAsm)
  {
    forall q, p, d | InProgress(MicroAsm, q, p, d) && 0 <= p < ProductionCount && 0 <= d < |MicroAsm.rhs(p)|
      ensures MicroAsm.Next(q, MicroAsm.rhs(p)[d]).Entry?
      ensures MicroAsm.kernel(MicroAsm.Next(q, MicroAsm.rhs(p)[d]).n, p, d + 1)
    {
      SymbolsOfRhs(p);
      Advance(q, p, d);
    }
  }

  lemma Advance(q: int, p: int, d: int)
    requires InProgress(MicroAsm, q, p, d) && 0 <= p < ProductionCount && 0 <= d < Len(p)
    ensures MicroAsm.Next(q, SymbolAt(p, d)).Entry? && Kernel(MicroAsm.Next(q, SymbolAt(p, d)).n, p, d + 1)
  {
    if d == 0 {
      AdvanceFromStart(q, p);
    } else {
      AdvanceFromKernel(q, p, d);
    }
  }

  lemma FinishFromKernel(q: int, p: int, b: Terminal)
    requires 0 < p < ProductionCount && Kernel(q, p, Len(p)) && Follow(Lhs(p), b)
    ensures Action(q, b) == Entry(-p)
  {
  }

  lemma FinishEmpty(q: int, p: int, b: Terminal)
    requires 0 < p < ProductionCount && Len(p) == 0 && Goto(q, Lhs(p)).Entry? && Follow(Lhs(p), b)
    ensures Action(q, b) == Entry(-p)
  {
  }

  lemma FinishChecked()
    ensures FinishOk(MicroAsm)
  {
    forall q, p, b | InProgress(MicroAsm, q, p, |MicroAsm.rhs(p)|) && 0 < p < ProductionCount
                     && MicroAsm.follow(MicroAsm.lhs(p), b)
      ensures MicroAsm.action(q, b) == Entry(-p)
    {
      SymbolsOfRhs(p);
      if Len(p) == 0 { FinishEmpty(q, p, b); } else { FinishFromKernel(q, p, b); }
    }
  }

  // ---------- what begins and follows ----------

  /** Begins and AllNullable for the rest of a right-hand side, without building it. */
  predicate BeginsFrom(p: int, d: nat, b: Terminal)
    decreases Len(p) - d
  {
    d < Len(p) &&
    match SymbolAt(p, d)
    case T(t) => b == t
    case N(n) => First(n, b) || (Nullable(n) && BeginsFrom(p, d + 1, b))
  }

  predicate NullableFrom(p: int, d: nat)
    decreases Len(p) - d
  {
    d >= Len(p) || (SymbolAt(p, d).N? && Nullable(SymbolAt(p, d).n) && NullableFrom(p, d + 1))
  }

  lemma {:induction false} SuffixOfRhs(p: int, rhs: seq<Symbol>, d: nat, b: Terminal)
    requires |rhs| == Len(p) && d <= |rhs| && forall i | 0 <= i < |rhs| :: rhs[i] == SymbolAt(p, i)
    ensures Begins(MicroAsm, rhs[d..], b) <==> BeginsFrom(p, d, b)
    ensures AllNullable(MicroAsm, rhs[d..]) <==> NullableFrom(p, d)
    decreases |rhs| - d
  {
    if d < |rhs| {
      SuffixOfRhs(p, rhs, d + 1, b);
      assert rhs[d..][1..] == rhs[d + 1..];
      assert rhs[d..][0] == SymbolAt(p, d);
    }
  }

  lemma FirstOfProduction1(p: int, b: Terminal)
    requires 1 <= p < 10
    ensures BeginsFrom(p, 0, b) ==> First(Lhs(p), b)
  {
  }

  lemma FirstOfProduction10(p: int, b: Terminal)
    requires 10 <= p < 14
    ensures BeginsFrom(p, 0, b) ==> First(Lhs(p), b)
  {
  }

  lemma FirstOfProduction14(p: int, b: Terminal)
    requires 14 <= p < 18
    ensures BeginsFrom(p, 0, b) ==> First(Lhs(p), b)
  {
  }

  lemma FirstOfProduction18(p: int, b: Terminal)
    requires 18 <= p < 24
    ensures BeginsFrom(p, 0, b) ==> First(Lhs(p), b)
  {
  }

  lemma FirstOfProduction24(p: int, b: Terminal)
    requires 24 <= p < 28
    ensures BeginsFrom(p, 0, b) ==> First(Lhs(p), b)
  {
  }

  lemma FirstOfProduction28(p: int, b: Terminal)
    requires 28 <= p < ProductionCount
    ensures BeginsFrom(p, 0, b) ==> First(Lhs(p), b)
  {
  }

  lemma FirstOfProduction(p: int, b: Terminal)
    requires 0 < p < ProductionCount
    ensures BeginsFrom(p, 0, b) ==> First(Lhs(p), b)
  {
    if p < 10 {
      FirstOfProduction1(p, b);
    } else if p < 14 {
      FirstOfProduction10(p, b);
    } else if p < 18 {
      FirstOfProduction14(p, b);
    } else if p < 24 {
      FirstOfProduction18(p, b);
    } else if p < 28 {
      FirstOfProduction24(p, b);
    } else {
      FirstOfProduction28(p, b);
    }
  }

  lemma NullableProduction(p: int)
    requires 0 < p < ProductionCount && NullableFrom(p, 0)
    ensures Nullable(Lhs(p))
  {
  }

  lemma FollowInProduction1(p: int, d: nat, b: Terminal)
    requires 1 <= p < 9 && d < Len(p) && SymbolAt(p, d).N?
    ensures BeginsFrom(p, d + 1, b) ==> Follow(SymbolAt(p, d).n, b)
    ensures NullableFrom(p, d + 1) && Follow(Lhs(p), b) ==> Follow(SymbolAt(p, d).n, b)
  {
  }

  lemma FollowInProduction9(p: int, d: nat, b: Terminal)
    requires 9 <= p < 13 && d < Len(p) && SymbolAt(p, d).N?
    ensures BeginsFrom(p, d + 1, b) ==> Follow(SymbolAt(p, d).n, b)
    ensures NullableFrom(p, d + 1) && Follow(Lhs(p), b) ==> Follow(SymbolAt(p, d).n, b)
  {
  }

  lemma FollowInProduction13(p: int, d: nat, b: Terminal)
    requires 13 <= p < 14 && d < Len(p) && SymbolAt(p, d).N?
    ensures BeginsFrom(p, d + 1, b) ==> Follow(SymbolAt(p, d).n, b)
    ensures NullableFrom(p, d + 1) && Follow(Lhs(p), b) ==> Follow(SymbolAt(p, d).n, b)
  {
  }

  lemma FollowInProduction14(p: int, d: nat, b: Terminal)
    requires 14 <= p < 15 && d < Len(p) && SymbolAt(p, d).N?
    ensures BeginsFrom(p, d + 1, b) ==> Follow(SymbolAt(p, d).n, b)
    ensures NullableFrom(p, d + 1) && Follow(Lhs(p), b) ==> Follow(SymbolAt(p, d).n, b)
  {
  }

  lemma FollowInProduction15(p: int, d: nat, b: Terminal)
    requires 15 <= p < 24 && d < Len(p) && SymbolAt(p, d).N?
    ensures BeginsFrom(p, d + 1, b) ==> Follow(SymbolAt(p, d).n, b)
    ensures NullableFrom(p, d + 1) && Follow(Lhs(p), b) ==> Follow(SymbolAt(p, d).n, b)
  {
  }

  lemma FollowInProduction24(p: int, d: nat, b: Terminal)
    requires 24 <= p < 26 && d < Len(p) && SymbolAt(p, d).N?
    ensures BeginsFrom(p, d + 1, b) ==> Follow(SymbolAt(p, d).n, b)
    ensures NullableFrom(p, d + 1) && Follow(Lhs(p), b) ==> Follow(SymbolAt(p, d).n, b)
  {
  }

  lemma FollowInProduction26(p: int, d: nat, b: Terminal)
    requires 26 <= p < ProductionCount && d < Len(p) && SymbolAt(p, d).N?
    ensures BeginsFrom(p, d + 1, b) ==> Follow(SymbolAt(p, d).n, b)
    ensures NullableFrom(p, d + 1) && Follow(Lhs(p), b) ==> Follow(SymbolAt(p, d).n, b)
  {
  }

  lemma FollowInProduction(p: int, d: nat, b: Terminal)
    requires 0 < p < ProductionCount && d < Len(p) && SymbolAt(p, d).N?
    ensures BeginsFrom(p, d + 1, b) ==> Follow(SymbolAt(p, d).n, b)
    ensures NullableFrom(p, d + 1) && Follow(Lhs(p), b) ==> Follow(SymbolAt(p, d).n, b)
  {
    if p < 9 {
      FollowInProduction1(p, d, b);
    } else if p < 13 {
      FollowInProduction9(p, d, b);
    } else if p < 14 {
      FollowInProduction13(p, d, b);
    } else if p < 15 {
      FollowInProduction14(p, d, b);
    } else if p < 24 {
      FollowInProduction15(p, d, b);
    } else if p < 26 {
      FollowInProduction24(p, d, b);
    } else {
      FollowInProduction26(p, d, b);
    }
  }

  lemma FirstChecked()
    ensures FirstOk(MicroAsm)
  {
    forall p | 0 < p < ProductionCount
      ensures AllNullable(MicroAsm, MicroAsm.rhs(p)) ==> MicroAsm.nullable(MicroAsm.lhs(p))
      ensures forall b :: Begins(MicroAsm, MicroAsm.rhs(p), b) ==> MicroAsm.first(MicroAsm.lhs(p), b)
    {
      SymbolsOfRhs(p);
      assert Rhs(p)[0..] == Rhs(p);
      forall b ensures Begins(MicroAsm, MicroAsm.rhs(p), b) ==> MicroAsm.first(MicroAsm.lhs(p), b) {
        SuffixOfRhs(p, Rhs(p), 0, b);
        FirstOfProduction(p, b);
      }
      SuffixOfRhs(p, Rhs(p), 0, End);
      if NullableFrom(p, 0) { NullableProduction(p); }
    }
  }

  lemma FollowAt(p: int, d: nat, b: Terminal)
    requires 0 < p < ProductionCount && d < |Rhs(p)| && Rhs(p)[d].N?
    ensures Begins(MicroAsm, Rhs(p)[d + 1..], b) ==> Follow(Rhs(p)[d].n, b)
    ensures AllNullable(MicroAsm, Rhs(p)[d + 1..]) && Follow(Lhs(p), b) ==> Follow(Rhs(p)[d].n, b)
  {
    SymbolsOfRhs(p);
    SuffixOfRhs(p, Rhs(p), d + 1, b);
    FollowInProduction(p, d, b);
  }

  lemma FollowChecked()
    ensures FollowOk(MicroAsm)
  {
    forall p, d | 0 < p < ProductionCount && 0 <= d < |MicroAsm.rhs(p)| && MicroAsm.rhs(p)[d].N?
      ensures forall b :: Begins(MicroAsm, MicroAsm.rhs(p)[d + 1..], b) ==> MicroAsm.follow(MicroAsm.rhs(p)[d].n, b)
      ensures AllNullable(MicroAsm, MicroAsm.rhs(p)[d + 1..]) ==>
                forall b :: MicroAsm.follow(MicroAsm.lhs(p), b) ==> MicroAsm.follow(MicroAsm.rhs(p)[d].n, b)
    {
      forall b
        ensures Begins(MicroAsm, MicroAsm.rhs(p)[d + 1..], b) ==> MicroAsm.follow(MicroAsm.rhs(p)[d].n, b)
        ensures AllNullable(MicroAsm, MicroAsm.rhs(p)[d + 1..]) && MicroAsm.follow(MicroAsm.lhs(p), b) ==>
                MicroAsm.follow(MicroAsm.rhs(p)[d].n, b)
      {
        FollowAt(p, d, b);
      }
    }
  }

  lemma TopChecked()
    ensures TopOk(MicroAsm)
  {
    forall q | MicroAsm.kernel(q, 0, 1) ensures MicroAsm.action(q, End) == Entry(0) {
      assert q == 1;
    }
  }

  lemma TablesCheckedComplete()
    ensures CheckedComplete(MicroAsm)
  {
    TablesChecked();
    FirstChecked();
    FollowChecked();
    AdvanceChecked();
    FinishChecked();
    TopChecked();
  }

  // ---------- the results for the micro-assembler ----------

  /** t is a parse tree of a micro-assembler file. */
  ghost predicate FileTree(t: Tree) {
    Derives(MicroAsm, t) && Root(MicroAsm, t) == N(File)
  }

  /** The micro-assembler's parser accepts exactly the sentences of its grammar, on every
      token sequence it comes to an end, and the tree it returns is the only one. */
  lemma ParserDecidesGrammar(w: seq<Token>)
    ensures Checked(MicroAsm)
    ensures Run(MicroAsm, Init(w)).Accepted? <==> exists t :: FileTree(t) && Yield(MicroAsm, t) == w
    ensures forall t :: FileTree(t) && Yield(MicroAsm, t) == w ==> Run(MicroAsm, Init(w)) == Accepted(t)
  {
    TablesCheckedComplete();
    ParseDecides(MicroAsm, w);
    forall t | FileTree(t) && Yield(MicroAsm, t) == w ensures Run(MicroAsm, Init(w)) == Accepted(t) {
      ParseComplete(MicroAsm, t);
    }
  }

  lemma GrammarIsUnambiguous(t1: Tree, t2: Tree)
    requires FileTree(t1) && FileTree(t2) && Yield(MicroAsm, t1) == Yield(MicroAsm, t2)
    ensures t1 == t2
  {
    TablesCheckedComplete();
    Unambiguous(MicroAsm, t1, t2);
  }
}
