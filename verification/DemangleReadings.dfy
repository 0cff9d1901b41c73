/** How some types read, whatever names they are made of. */
module DemangleReadings {
  import opened DemangleNodes
  import opened DemanglePrint
  import opened DemangleLists

  /** References around `core`, the outermost first. */
  function Chain(rvalues: seq<bool>, core: Node): Node {
    if rvalues == [] then core else Reference(Chain(rvalues[1..], core), rvalues[0])
  }

  predicate All(rvalues: seq<bool>) { forall i :: 0 <= i < |rvalues| ==> rvalues[i] }

  /** References to references read as one reference to the core: an rvalue reference exactly when all of them are. */
  lemma {:induction false} ReferencesCollapse(rvalue: bool, rvalues: seq<bool>, core: Node, t: Turn)
    requires !core.Reference? && !core.Pack? && !core.Forward?
    ensures Collapse(rvalue, Chain(rvalues, core), t) == (rvalue && All(rvalues), core, t)
  {
    if rvalues != [] {
      ReferencesCollapse(rvalue && rvalues[0], rvalues[1..], core, t);
      assert All(rvalues) <==> rvalues[0] && All(rvalues[1..]);
    }
  }

  lemma {:induction false} ChainOfNameReads(rvalue: bool, rvalues: seq<bool>, name: string, s: Stream)
    ensures Print(Reference(Chain(rvalues, Name(name)), rvalue), s, false)
            == Put(s, name + (if rvalue && All(rvalues) then "&&" else "&"))
  {
    var n := Reference(Chain(rvalues, Name(name)), rvalue);
    ReferencesCollapse(rvalue, rvalues, Name(name), s.turn);
    NoRight(rvalues, name);
    assert Left(Name(name), s, false) == Put(s, name);
    assert Opened(Name(name), Put(s, name), true) == Put(Put(s, name), "");
    assert Put(s, name).text + "" == s.text + name;
  }

  lemma {:induction false} NoRight(rvalues: seq<bool>, name: string)
    ensures Cached(Rhs, Chain(rvalues, Name(name))) == No
  {
    if rvalues != [] { NoRight(rvalues[1..], name); }
  }

  /** A pointer to an array. */
  lemma {:induction false} PointerToArrayReads(base: string, size: string, s: Stream)
    ensures Print(Pointer(ArrayType(Name(base), Name(size))), s, false)
            == Put(s, base + " (*) [" + size + "]")
  {
    var a := ArrayType(Name(base), Name(size));
    var l := Put(s, base);
    ArrayHalves(base, size, s);
    assert Left(a, s, false) == l;
    assert Has(Array, a, l.turn) == (true, l.turn);
    var o := Put(Put(l, " ("), "*");
    assert " " + "(" == " (";
    assert Left(Pointer(a), s, false) == o;
    var c := Put(o, ")");
    assert Closed(a, o) == c;
    assert Last(c) == ')';
    ArrayRight(base, size, c);
    var r := Right(a, c, false);
    assert Cached(Rhs, Pointer(a)) == Yes;
    assert Print(Pointer(a), s, false) == r;
    Regroup(s.text, base, size);
    assert r.text == s.text + base + " (" + "*" + ")" + " [" + size + "]";
  }

  lemma {:induction false} Regroup(t: string, base: string, size: string)
    ensures t + base + " (" + "*" + ")" + " [" + size + "]" == t + (base + " (*) [" + size + "]")
  {
    assert " (" + "*" + ")" + " [" == " (*) [";
    assert t + base + " (" + "*" + ")" + " [" == t + base + (" (" + "*" + ")" + " [");
  }

  lemma {:induction false} ArrayHalves(base: string, size: string, s: Stream)
    ensures Left(ArrayType(Name(base), Name(size)), s, false) == Put(s, base)
  {
    assert Left(Name(base), s, false) == Put(s, base);
    assert Write(Done, Put(s, base), false) == Put(s, base);
  }

  lemma {:induction false} ArrayRight(base: string, size: string, c: Stream)
    requires Last(c) != ']'
    ensures Right(ArrayType(Name(base), Name(size)), c, false).text == c.text + " [" + size + "]"
    ensures Right(ArrayType(Name(base), Name(size)), c, false).turn == c.turn
  {
    var p0 := Text("]", Done);
    var p1 := Whole(Name(size), p0);
    var p2 := Text("[", p1);
    var s1 := Put(c, " ");
    var s2 := Put(s1, "[");
    var s3 := Put(s2, size);
    var s4 := Put(s3, "]");
    assert Write(p0, s3, false) == s4;
    assert Print(Name(size), s2, false) == s3;
    assert Write(p1, s2, false) == s4;
    assert Write(p2, s1, false) == s4;
    assert Write(GapUnless(']', p2), c, false) == s4;
    assert Right(Name(base), s4, false) == s4;
    assert Write(Done, s4, false) == s4;
    assert c.text + " " + "[" + size + "]" == c.text + " [" + size + "]";
  }

  // ---------------------------------------------------------------- names

  lemma {:induction false} QualifiedNameReads(qualifier: Node, name: Node, x: string, y: string, full: bool)
    requires ReadsAs(qualifier, x, full) && ReadsAs(name, y, full)
    ensures ReadsAs(QualifiedName(qualifier, name), x + "::" + y, full)
  {
    forall s: Stream ensures Print(QualifiedName(qualifier, name), s, full) == Put(s, x + "::" + y) {
      hide Put, ReadsAs;
      ReadsHere(qualifier, x, s, full);
      ReadsHere(name, y, Put(Put(s, x), "::"), full);
      PutPut(s, x, "::");
      PutPut(s, x + "::", y);
      WrittenPrints(Whole(qualifier, Text("::", Whole(name, Done))), s, full);
      assert Write(Text("::", Whole(name, Done)), Put(s, x), full) == Write(Whole(name, Done), Put(Put(s, x), "::"), full);
      assert Write(Whole(name, Done), Put(Put(s, x), "::"), full) == Print(name, Put(Put(s, x), "::"), full) by {
        OnlyWhole(name, Put(Put(s, x), "::"), full);
      }
    }
  }

  lemma {:induction false} WrittenPrints(parts: Parts, s: Stream, full: bool)
    ensures Print(Written(parts), s, full) == Write(parts, s, full)
  {
    hide Write;
  }

  lemma {:induction false} OnlyWhole(n: Node, s: Stream, full: bool)
    ensures Write(Whole(n, Done), s, full) == Print(n, s, full)
  {
    hide Print;
    var r := Print(n, s, full);
    assert Write(Done, r, full) == r;
  }

  /** Arguments in angle brackets; a space keeps the last bracket from one in front of it. */
  lemma {:induction false} TemplateArgsRead(params: Nodes, texts: seq<string>, full: bool)
    requires AllRead(params, texts, full)
    ensures var list := "<" + Join(NonEmpty(texts));
            ReadsAs(TemplateArgs(params), list + (if list[|list| - 1] == '>' then " >" else ">"), full)
  {
    var list := "<" + Join(NonEmpty(texts));
    var close := if list[|list| - 1] == '>' then " >" else ">";
    forall s: Stream ensures Print(TemplateArgs(params), s, full) == Put(s, list + close) {
      hide Put, Join, NonEmpty, WithComma, Last;
      var p0 := Text(">", Done);
      var p1 := GapIf('>', p0);
      var p2 := Listed(params, p1);
      ListReads(params, texts, Put(s, "<"), full);
      PutPut(s, "<", Join(NonEmpty(texts)));
      WrittenPrints(Text("<", p2), s, full);
      var l := Put(s, list);
      LastBehind(s, list);
      assert Write(p2, Put(s, "<"), full) == Write(p1, l, full);
      PutPut(s, list, " ");
      PutPut(l, " ", ">");
      PutPut(s, list, close);
      assert " " + ">" == " >";
      var gapped := if Last(l) == '>' then Put(l, " ") else l;
      assert Write(p1, l, full) == Write(p0, gapped, full);
      assert Write(p0, gapped, full) == Put(gapped, ">");
    }
  }

  lemma {:induction false} LastBehind(s: Stream, t: string)
    requires t != ""
    ensures Last(Put(s, t)) == t[|t| - 1]
  {
  }

  lemma {:induction false} NameWithArgsReads(name: Node, args: Node, x: string, y: string, full: bool)
    requires ReadsAs(name, x, full) && ReadsAs(args, y, full)
    ensures ReadsAs(NameWithTemplateArgs(name, args), x + y, full)
  {
    forall s: Stream ensures Print(NameWithTemplateArgs(name, args), s, full) == Put(s, x + y) {
      hide Put, ReadsAs;
      ReadsHere(name, x, s, full);
      ReadsHere(args, y, Put(s, x), full);
      PutPut(s, x, y);
      WrittenPrints(Whole(name, Whole(args, Done)), s, full);
      OnlyWhole(args, Put(s, x), full);
    }
  }

  /** An argument pack is its elements. */
  lemma {:induction false} ArgumentPackReads(elements: Nodes, texts: seq<string>, full: bool)
    requires AllRead(elements, texts, full)
    ensures ReadsAs(TemplateArgumentPack(elements), Join(NonEmpty(texts)), full)
  {
    forall s: Stream ensures Print(TemplateArgumentPack(elements), s, full) == Put(s, Join(NonEmpty(texts))) {
      hide Put, Join, NonEmpty, WithComma;
      ListReads(elements, texts, s, full);
      WrittenPrints(Listed(elements, Done), s, full);
      var r := Put(s, Join(NonEmpty(texts)));
      assert Write(Done, r, full) == r;
    }
  }
}
