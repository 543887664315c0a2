/** The nearest symbol and the nearest section of kernel/src/fs/elf/elf.c, found by comparing differences that wrap around. */
module SymbolSearch {
  import opened Machine

  datatype Symbol = Symbol(value: int, info: int)

  datatype Section = Section(addr: int)

  /** The loaded object: its tables and the addresses of __code and __end. */
  datatype Object = Object(sections: seq<Section>, symbols: seq<Symbol>, start: int, end: int)

  /** Every address in the tables has 32 bits. */
  ghost predicate Loaded(o: Object) {
    && (forall i :: 0 <= i < |o.symbols| ==> Word(o.symbols[i].value))
    && (forall i :: 0 <= i < |o.sections| ==> Word(o.sections[i].addr))
  }

  /** STT_CHECKTYPE */
  predicate HasType(s: Symbol, ty: int) {
    s.info % 16 == ty
  }

  /** The type is in the low four bits of info, the binding in the high four. */
  lemma TypeBits(value: int, bind: int, t: int, ty: int)
    requires 0 <= bind < 16 && 0 <= t < 16
    ensures HasType(Symbol(value, bind * 16 + t), ty) <==> ty == t
  {
  }

  /** address - value, as uint32_t */
  function Distance(address: int, value: int): int {
    Wrap(address - value)
  }

  // ---------------------------------------------------------------- what is nearest

  datatype Entry = Entry(wanted: bool, value: int)

  function SymbolEntries(o: Object, ty: int): (es: seq<Entry>)
    ensures |es| == |o.symbols| && forall i :: 0 <= i < |es| ==> es[i] == Entry(HasType(o.symbols[i], ty), o.symbols[i].value)
  {
    seq(|o.symbols|, i requires 0 <= i < |o.symbols| => Entry(HasType(o.symbols[i], ty), o.symbols[i].value))
  }

  function SectionEntries(o: Object): (es: seq<Entry>)
    ensures |es| == |o.sections| && forall i :: 0 <= i < |es| ==> es[i] == Entry(true, o.sections[i].addr)
  {
    seq(|o.sections|, i requires 0 <= i < |o.sections| => Entry(true, o.sections[i].addr))
  }

  predicate Wanted(es: seq<Entry>, i: int) {
    0 <= i < |es| && es[i].wanted
  }

  predicate NoneWanted(es: seq<Entry>, n: int) {
    forall i :: 0 <= i < n && i < |es| ==> !es[i].wanted
  }

  /** Entry k is the first of those with the smallest wrapped distance among the first n. */
  ghost predicate FirstLeast(es: seq<Entry>, address: int, n: int, k: int) {
    && Wanted(es, k) && k < n
    && (forall i :: 0 <= i < n && Wanted(es, i) ==> Distance(address, es[k].value) <= Distance(address, es[i].value))
    && (forall i :: 0 <= i < k && Wanted(es, i) ==> Distance(address, es[k].value) < Distance(address, es[i].value))
  }

  ghost predicate SomeBelow(es: seq<Entry>, address: int) {
    exists i :: Wanted(es, i) && es[i].value <= address
  }

  /** Entry k has the greatest value not above the limit, and is the first that has it. */
  ghost predicate FirstGreatest(es: seq<Entry>, limit: int, k: int) {
    && Wanted(es, k) && es[k].value <= limit
    && (forall i :: Wanted(es, i) && es[i].value <= limit ==> es[i].value <= es[k].value)
    && (forall i :: 0 <= i < k && Wanted(es, i) ==> es[i].value != es[k].value)
  }

  /**
   The smallest wrapped distance is the predecessor's, if there is one. If every entry lies above
   the address, what is found is the greatest of all.
   */
  lemma NearestIs(es: seq<Entry>, address: int, k: int)
    requires Word(address) && forall i :: 0 <= i < |es| ==> Word(es[i].value)
    requires FirstLeast(es, address, |es|, k)
    ensures if SomeBelow(es, address) then FirstGreatest(es, address, k) else FirstGreatest(es, TWO32 - 1, k) && es[k].value > address
  {
    forall i | Wanted(es, i) ensures Distance(address, es[i].value) == if es[i].value <= address then address - es[i].value else address - es[i].value + TWO32 {
    }
    if SomeBelow(es, address) {
      var i :| Wanted(es, i) && es[i].value <= address;
      assert Distance(address, es[k].value) <= Distance(address, es[i].value);
    }
  }

  // ---------------------------------------------------------------- the loops

  /** The answer k, -1 for NULL. */
  ghost predicate Nearest(es: seq<Entry>, address: int, k: int) {
    if NoneWanted(es, |es|) then k == -1
    else if SomeBelow(es, address) then FirstGreatest(es, address, k)
    else FirstGreatest(es, TWO32 - 1, k) && es[k].value > address
  }

  /** ELFFindNearestSymbolByAddress */
  method FindNearestSymbol(o: Object, ty: int, address: int) returns (k: int)
    requires Loaded(o) && Word(address)
    ensures if o.sections != [] && o.symbols != [] && o.start <= address <= o.end then Nearest(SymbolEntries(o, ty), address, k) else k == -1
  {
    if |o.sections| == 0 || |o.symbols| == 0 || address < o.start || address > o.end {
      return -1;
    }
    ghost var es := SymbolEntries(o, ty);
    hide Distance, HasType;
    k := -1;
    for i := 0 to |o.symbols|
      invariant if k == -1 then NoneWanted(es, i) else FirstLeast(es, address, i, k)
    {
      assert es[i] == Entry(HasType(o.symbols[i], ty), o.symbols[i].value);
      if !HasType(o.symbols[i], ty) {
        continue;
      }
      if k == -1 {
        k := i;
      }
      if Distance(address, o.symbols[i].value) < Distance(address, o.symbols[k].value) {
        k := i;
      }
    }
    if k != -1 {
      NearestIs(es, address, k);
    }
  }

  /** ELFFindNearestSectionByAddress */
  method FindNearestSection(o: Object, address: int) returns (k: int)
    requires Loaded(o) && Word(address)
    ensures if o.sections != [] && o.symbols != [] && o.start <= address <= o.end then Nearest(SectionEntries(o), address, k) else k == -1
  {
    if |o.sections| == 0 || |o.symbols| == 0 || address < o.start || address > o.end {
      return -1;
    }
    ghost var es := SectionEntries(o);
    hide Distance;
    k := -1;
    for i := 0 to |o.sections|
      invariant if k == -1 then NoneWanted(es, i) else FirstLeast(es, address, i, k)
    {
      assert es[i] == Entry(true, o.sections[i].addr);
      if k == -1 {
        k := i;
      }
      if Distance(address, o.sections[i].addr) < Distance(address, o.sections[k].addr) {
        k := i;
      }
    }
    if k != -1 {
      NearestIs(es, address, k);
    }
  }

  /** The answer is a symbol at or below the address exactly when there is one of that type. */
  lemma AnswerBelow(es: seq<Entry>, address: int, k: int)
    requires Nearest(es, address, k)
    ensures Wanted(es, k) && es[k].value <= address <==> SomeBelow(es, address)
  {
  }
}
