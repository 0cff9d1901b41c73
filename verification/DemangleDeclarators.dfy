/**
  How types read.  A type is declared around a core, from the inside out, as C declarators are: what the type
  puts in front of its core and behind it is worked out on whole strings here, and printing the tree gives the
  same string, for all types, to every stream.
 */
module DemangleDeclarators {
  import opened DemangleNodes
  import opened DemanglePrint
  import opened DemangleShortcut
  import opened DemangleLists

  datatype Ty =
    | Named(name: string)
    | Qualified(inner: Ty, quals: Quals)
    | PointerTo(inner: Ty)
    | ReferenceTo(inner: Ty, rvalue: bool)
    | MemberOf(cls: Ty, inner: Ty)
    | ArrayOf(inner: Ty, bound: string)
    | FunctionOf(ret: Ty, params: Tys, quals: Quals, ref: RefQual)
    | Expansion(elements: Tys)                         // a pack of types, expanded

  datatype Tys = Nil | More(head: Ty, rest: Tys)

  function Weight(ty: Ty): nat {
    1 + match ty
        case Named(_) => 0
        case Qualified(inner, _) => Weight(inner)
        case PointerTo(inner) => Weight(inner)
        case ReferenceTo(inner, _) => Weight(inner)
        case MemberOf(cls, inner) => Weight(cls) + Weight(inner)
        case ArrayOf(inner, _) => Weight(inner)
        case FunctionOf(ret, params, _, _) => Weight(ret) + Weights(params)
        case Expansion(elements) => Weights(elements)
  }

  function Weights(tys: Tys): nat { if tys.Nil? then 0 else 1 + Weight(tys.head) + Weights(tys.rest) }

  // ---------------------------------------------------------------- the tree of a type

  function Tree(ty: Ty): Node {
    match ty
    case Named(name) => Name(name)
    case Qualified(inner, quals) => Qual(Tree(inner), quals)
    case PointerTo(inner) => Pointer(Tree(inner))
    case ReferenceTo(inner, rvalue) => Reference(Tree(inner), rvalue)
    case MemberOf(cls, inner) => MemberPointer(Tree(cls), Tree(inner))
    case ArrayOf(inner, bound) => ArrayType(Tree(inner), Name(bound))
    case FunctionOf(ret, params, quals, ref) => FunctionType(Tree(ret), Trees(params), quals, ref, Done)
    case Expansion(elements) => PackExpansion(Pack(Trees(elements)))
  }

  function Trees(tys: Tys): Nodes { if tys.Nil? then Empty else Cons(Tree(tys.head), Trees(tys.rest)) }

  // ---------------------------------------------------------------- how a type is declared

  function QualWords(q: Quals): string {
    (if q.isConst then " const" else "") + (if q.isVolatile then " volatile" else "") + (if q.isRestrict then " restrict" else "")
  }

  function RefWords(r: RefQual): string { if r == RefLValue then " &" else if r == RefRValue then " &&" else "" }

  /** An array or a function under its qualifiers. */
  predicate IsArray(ty: Ty) { ty.ArrayOf? || (ty.Qualified? && IsArray(ty.inner)) }

  predicate IsFunction(ty: Ty) { ty.FunctionOf? || (ty.Qualified? && IsFunction(ty.inner)) }

  /** What stands inside pointers and references to arrays and functions is put in parentheses. */
  function Around(ty: Ty, inside: string): string {
    if IsArray(ty) then " (" + inside + ")" else if IsFunction(ty) then "(" + inside + ")" else inside
  }

  /** The character that the text in front of the core of a type ends with. */
  function Tip(ty: Ty): char {
    match ty
    case Named(name) => if name == "" then '\0' else name[|name| - 1]
    case Qualified(inner, quals) =>
      if quals.isRestrict then 't' else if quals.isVolatile then 'e' else if quals.isConst then 't' else Tip(inner)
    case PointerTo(_) => '*'
    case ReferenceTo(_, _) => '&'
    case MemberOf(_, _) => '*'
    case ArrayOf(inner, _) => Tip(inner)
    case FunctionOf(_, _, _, _) => ' '
    case Expansion(_) => '\0'
  }

  /** Nothing may stand in front of the core of the type. */
  predicate MayBeBlank(ty: Ty) {
    match ty
    case Named(name) => name == ""
    case Qualified(inner, quals) => MayBeBlank(inner) && !quals.isConst && !quals.isVolatile && !quals.isRestrict
    case ArrayOf(inner, _) => MayBeBlank(inner)
    case Expansion(_) => true
    case _ => false
  }

  /** What arrays are of has a text, and packs are not as long as the largest 32-bit number. */
  predicate Sensible(ty: Ty) {
    match ty
    case Named(_) => true
    case Qualified(inner, _) => Sensible(inner)
    case PointerTo(inner) => Sensible(inner)
    case ReferenceTo(inner, _) => Sensible(inner)
    case MemberOf(cls, inner) => Sensible(cls) && Sensible(inner)
    case ArrayOf(inner, _) => Sensible(inner) && !MayBeBlank(inner)
    case FunctionOf(ret, params, _, _) => Sensible(ret) && AllSensible(params)
    case Expansion(elements) => AllSensible(elements) && Length(elements) < Max
  }

  predicate AllSensible(tys: Tys) { tys.Nil? || (Sensible(tys.head) && AllSensible(tys.rest)) }

  function Length(tys: Tys): nat { if tys.Nil? then 0 else 1 + Length(tys.rest) }

  /** The type declared around `core`; a space keeps brackets from what stands in front of them, unless that is brackets. */
  function Declare(ty: Ty, core: string): string
    decreases Weight(ty), 0
  {
    match ty
    case Named(name) => name + core
    case Qualified(inner, quals) => Declare(inner, QualWords(quals) + core)
    case PointerTo(inner) => Declare(inner, Around(inner, "*" + core))
    case ReferenceTo(inner, rvalue) =>
      if inner.ReferenceTo? then
        assert Weight(inner) == 1 + Weight(inner.inner);
        Declare(ReferenceTo(inner.inner, rvalue && inner.rvalue), core)
      else Declare(inner, Around(inner, (if rvalue then "&&" else "&") + core))
    case MemberOf(cls, inner) =>
      var member := Declare(cls, "") + "::*" + core;
      Declare(inner, if IsArray(inner) || IsFunction(inner) then "(" + member + ")" else " " + member)
    case ArrayOf(inner, bound) =>
      var last := if core == "" then Tip(inner) else core[|core| - 1];
      Declare(inner, core + (if last == ']' then "[" else " [") + bound + "]")
    case FunctionOf(ret, params, quals, ref) =>
      Declare(ret, " " + core + "(" + Join(NonEmpty(Declared(params))) + ")") + QualWords(quals) + RefWords(ref)
    case Expansion(elements) => Join(Declared(elements)) + core
  }

  function Declared(tys: Tys): seq<string>
    decreases Weights(tys), 1
  {
    if tys.Nil? then [] else [Declare(tys.head, "")] + Declared(tys.rest)
  }

  // ---------------------------------------------------------------- the two halves

  /** What stands in front of the core, and behind it, where `last` is the character in front of that. */
  function Front(ty: Ty): string
    decreases Weight(ty)
  {
    match ty
    case Named(name) => name
    case Qualified(inner, quals) => Front(inner) + QualWords(quals)
    case PointerTo(inner) => Front(inner) + Opening(inner) + "*"
    case ReferenceTo(inner, rvalue) =>
      if inner.ReferenceTo? then
        assert Weight(inner) == 1 + Weight(inner.inner);
        Front(ReferenceTo(inner.inner, rvalue && inner.rvalue))
      else Front(inner) + Opening(inner) + if rvalue then "&&" else "&"
    case MemberOf(cls, inner) =>
      Front(inner) + (if IsArray(inner) || IsFunction(inner) then "(" else " ") + Declare(cls, "") + "::*"
    case ArrayOf(inner, _) => Front(inner)
    case FunctionOf(ret, _, _, _) => Front(ret) + " "
    case Expansion(elements) => Join(Declared(elements))
  }

  function Opening(ty: Ty): string { if IsArray(ty) then " (" else if IsFunction(ty) then "(" else "" }

  function Closing(ty: Ty): string { if IsArray(ty) || IsFunction(ty) then ")" else "" }

  function Back(ty: Ty, last: char): string
    decreases Weight(ty)
  {
    match ty
    case Qualified(inner, _) => Back(inner, last)
    case PointerTo(inner) => Closing(inner) + Back(inner, if Closing(inner) == "" then last else ')')
    case ReferenceTo(inner, rvalue) =>
      if inner.ReferenceTo? then
        assert Weight(inner) == 1 + Weight(inner.inner);
        Back(ReferenceTo(inner.inner, rvalue && inner.rvalue), last)
      else Closing(inner) + Back(inner, if Closing(inner) == "" then last else ')')
    case MemberOf(_, inner) => Closing(inner) + Back(inner, if Closing(inner) == "" then last else ')')
    case ArrayOf(inner, bound) => (if last == ']' then "[" else " [") + bound + "]" + Back(inner, ']')
    case FunctionOf(ret, params, quals, ref) =>
      "(" + Join(NonEmpty(Declared(params))) + ")" + Back(ret, ')') + QualWords(quals) + RefWords(ref)
    case _ => ""
  }

  function LastOf(s: string): char { if s == "" then '\0' else s[|s| - 1] }

  lemma {:induction false} Assoc(a: string, b: string, c: string)
    ensures a + b + c == a + (b + c)
  {
  }

  lemma {:induction false} LastOfJoin(a: string, b: string)
    ensures LastOf(a + b) == if b == "" then LastOf(a) else LastOf(b)
  {
    if b == "" { assert a + b == a; }
  }

  /** The text in front of the core ends with the tip, unless there is none. */
  lemma {:induction false} FrontEnds(ty: Ty)
    requires !MayBeBlank(ty)
    ensures Front(ty) != "" && LastOf(Front(ty)) == Tip(ty)
    decreases Weight(ty)
  {
    match ty
    case Named(_) =>
    case Qualified(inner, quals) =>
      if QualWords(quals) == "" {
        NoQuals(quals);
        FrontEnds(inner);
        assert Front(ty) == Front(inner);
      } else {
        LastOfJoin(Front(inner), QualWords(quals));
        QualEnds(quals);
      }
    case PointerTo(inner) => LastOfJoin(Front(inner) + Opening(inner), "*");
    case ReferenceTo(inner, rvalue) =>
      if inner.ReferenceTo? {
        assert Weight(inner) == 1 + Weight(inner.inner);
        FrontEnds(ReferenceTo(inner.inner, rvalue && inner.rvalue));
      } else {
        LastOfJoin(Front(inner) + Opening(inner), if rvalue then "&&" else "&");
      }
    case MemberOf(cls, inner) =>
      LastOfJoin(Front(inner) + (if IsArray(inner) || IsFunction(inner) then "(" else " ") + Declare(cls, ""), "::*");
    case ArrayOf(inner, _) => FrontEnds(inner);
    case FunctionOf(ret, _, _, _) => LastOfJoin(Front(ret), " ");
  }

  lemma {:induction false} NoQuals(q: Quals)
    requires QualWords(q) == ""
    ensures !q.isConst && !q.isVolatile && !q.isRestrict
  {
    assert |QualWords(q)| == (if q.isConst then 6 else 0) + (if q.isVolatile then 9 else 0) + (if q.isRestrict then 9 else 0);
  }

  lemma {:induction false} QualEnds(q: Quals)
    requires QualWords(q) != ""
    ensures LastOf(QualWords(q)) == if q.isRestrict then 't' else if q.isVolatile then 'e' else 't'
  {
    var a, b, c := if q.isConst then " const" else "", if q.isVolatile then " volatile" else "", if q.isRestrict then " restrict" else "";
    LastOfJoin(a + b, c);
    LastOfJoin(a, b);
  }

  /** Declaring is putting the core between the two halves. */
  lemma {:induction false} DeclareIsHalves(ty: Ty, core: string)
    requires Sensible(ty)
    ensures Declare(ty, core) == Front(ty) + core + Back(ty, LastOf(Front(ty) + core))
    decreases Weight(ty), 0
  {
    match ty
    case Named(name) => assert name + core + "" == name + core;
    case Qualified(inner, quals) =>
      DeclareIsHalves(inner, QualWords(quals) + core);
      Assoc(Front(inner), QualWords(quals), core);
    case PointerTo(inner) => DeclareAround(inner, "*", core);
    case ReferenceTo(inner, rvalue) =>
      if inner.ReferenceTo? {
        assert Weight(inner) == 1 + Weight(inner.inner);
        DeclareIsHalves(ReferenceTo(inner.inner, rvalue && inner.rvalue), core);
      } else {
        DeclareAround(inner, if rvalue then "&&" else "&", core);
      }
    case MemberOf(cls, inner) => DeclareMember(inner, Declare(cls, ""), core);
    case ArrayOf(inner, bound) => DeclareArray(inner, bound, core);
    case FunctionOf(ret, params, quals, ref) => DeclareFunction(ret, Join(NonEmpty(Declared(params))), QualWords(quals), RefWords(ref), core);
    case Expansion(elements) => assert Join(Declared(elements)) + core + "" == Join(Declared(elements)) + core;
  }

  lemma {:induction false} DeclareAround(inner: Ty, sign: string, core: string)
    requires Sensible(inner) && sign != ""
    ensures Declare(inner, Around(inner, sign + core))
            == Front(inner) + Opening(inner) + sign + core
               + (Closing(inner) + Back(inner, if Closing(inner) == "" then LastOf(Front(inner) + Opening(inner) + sign + core) else ')'))
    decreases Weight(inner), 1
  {
    hide Front, Back, Declare;
    DeclareIsHalves(inner, Around(inner, sign + core));
    var f, o, c := Front(inner), Opening(inner), Closing(inner);
    assert Around(inner, sign + core) == o + sign + core + c;
    Regroup(f, o, sign, core, c);
    LastOfJoin(f + o + sign + core, c);
  }

  lemma {:induction false} Regroup(f: string, o: string, sign: string, core: string, c: string)
    ensures f + (o + sign + core + c) == f + o + sign + core + c
    ensures forall back: string :: f + o + sign + core + c + back == f + o + sign + core + (c + back)
  {
  }

  lemma {:induction false} DeclareMember(inner: Ty, cls: string, core: string)
    requires Sensible(inner)
    ensures var open := if IsArray(inner) || IsFunction(inner) then "(" else " ";
            Declare(inner, if IsArray(inner) || IsFunction(inner) then "(" + (cls + "::*" + core) + ")" else " " + (cls + "::*" + core))
            == Front(inner) + open + cls + "::*" + core
               + (Closing(inner) + Back(inner, if Closing(inner) == "" then LastOf(Front(inner) + open + cls + "::*" + core) else ')'))
    decreases Weight(inner), 1
  {
    hide Front, Back, Declare;
    var open := if IsArray(inner) || IsFunction(inner) then "(" else " ";
    var f, c := Front(inner), Closing(inner);
    var inside := if IsArray(inner) || IsFunction(inner) then "(" + (cls + "::*" + core) + ")" else " " + (cls + "::*" + core);
    DeclareIsHalves(inner, inside);
    MemberText(open, cls, core, c);
    assert inside == open + (cls + "::*") + core + c;
    Regroup(f, open, cls + "::*", core, c);
    Assoc(f + open, cls, "::*");
    LastOfJoin(f + open + (cls + "::*") + core, c);
  }

  lemma {:induction false} MemberText(open: string, cls: string, core: string, c: string)
    ensures open + (cls + "::*" + core) + c == open + (cls + "::*") + core + c
    ensures open + (cls + "::*" + core) == open + (cls + "::*" + core) + ""
  {
  }

  lemma {:induction false} DeclareArray(inner: Ty, bound: string, core: string)
    requires Sensible(inner) && !MayBeBlank(inner)
    ensures var last := if core == "" then Tip(inner) else core[|core| - 1];
            && LastOf(Front(inner) + core) == last
            && Declare(inner, core + (if last == ']' then "[" else " [") + bound + "]")
               == Front(inner) + core + ((if last == ']' then "[" else " [") + bound + "]" + Back(inner, ']'))
    decreases Weight(inner), 1
  {
    hide Front, Back, Declare;
    FrontEnds(inner);
    LastOfJoin(Front(inner), core);
    var last := if core == "" then Tip(inner) else core[|core| - 1];
    var brackets := (if last == ']' then "[" else " [") + bound + "]";
    DeclareIsHalves(inner, core + (if last == ']' then "[" else " [") + bound + "]");
    BracketText(Front(inner), core, if last == ']' then "[" else " [", bound);
    LastOfJoin(Front(inner) + core + (if last == ']' then "[" else " [") + bound, "]");
  }

  lemma {:induction false} BracketText(f: string, core: string, open: string, bound: string)
    ensures f + (core + open + bound + "]") == f + core + open + bound + "]"
    ensures forall back: string :: f + core + open + bound + "]" + back == f + core + (open + bound + "]" + back)
  {
  }

  lemma {:induction false} DeclareFunction(ret: Ty, params: string, quals: string, ref: string, core: string)
    requires Sensible(ret)
    ensures Declare(ret, " " + core + "(" + params + ")") + quals + ref
            == Front(ret) + " " + core + ("(" + params + ")" + Back(ret, ')') + quals + ref)
    decreases Weight(ret), 1
  {
    hide Front, Back, Declare;
    DeclareIsHalves(ret, " " + core + "(" + params + ")");
    FunctionText(Front(ret), core, params, quals, ref);
    LastOfJoin(Front(ret) + " " + core + "(" + params, ")");
  }

  lemma {:induction false} FunctionText(f: string, core: string, params: string, quals: string, ref: string)
    ensures f + (" " + core + "(" + params + ")") == f + " " + core + "(" + params + ")"
    ensures forall back: string :: f + " " + core + "(" + params + ")" + back + quals + ref
                                   == f + " " + core + ("(" + params + ")" + back + quals + ref)
  {
  }

  // ---------------------------------------------------------------- what is printed

  /** Trees of types answer every question at once, without a look at packs. */
  lemma {:induction false} HasAtOnce(ty: Ty, t: Turn)
    ensures Has(Array, Tree(ty), t) == (IsArray(ty), t) && Has(Function, Tree(ty), t) == (IsFunction(ty), t)
    ensures Grouped(Tree(ty), t) == (IsArray(ty) || IsFunction(ty), t)
  {
    FlagsKnown(ty);
  }

  lemma {:induction false} FlagsKnown(ty: Ty)
    ensures Cached(Array, Tree(ty)) == (if IsArray(ty) then Yes else No)
    ensures Cached(Function, Tree(ty)) == (if IsFunction(ty) then Yes else No)
  {
    if ty.Qualified? { FlagsKnown(ty.inner); }
  }

  /** A reference is printed as the one to what lies behind all references. */
  lemma {:induction false} CollapseStep(rvalue: bool, inner: Ty, t: Turn)
    ensures Collapse(rvalue, Tree(inner), t)
            == if inner.ReferenceTo? then Collapse(rvalue && inner.rvalue, Tree(inner.inner), t) else (rvalue, Tree(inner), t)
  {
  }

  lemma {:induction false} OpenedReads(inner: Ty, s: Stream)
    ensures Opened(Tree(inner), s, true) == Put(s, Opening(inner))
    ensures Opened(Tree(inner), s, false) == Put(s, if IsArray(inner) || IsFunction(inner) then "(" else " ")
    ensures Closed(Tree(inner), s) == Put(s, Closing(inner))
  {
    hide Has, Grouped;
    HasAtOnce(inner, s.turn);
    assert " " + "(" == " (";
  }

  /** The left half of the tree is what stands in front of the core. */
  lemma {:induction false} FrontReads(ty: Ty, s: Stream, full: bool)
    requires Sensible(ty)
    ensures Left(Tree(ty), s, full) == Put(s, Front(ty))
    decreases Weight(ty), 2
  {
    hide Opened, Closed, Put, Collapse, Print, Right, Declare, Join, NonEmpty, Declared;
    match ty
    case Named(_) =>
    case Qualified(inner, quals) =>
      FrontReads(inner, s, full);
      PutPut(s, Front(inner), QualWords(quals));
    case PointerTo(inner) =>
      FrontReads(inner, s, full);
      OpenedReads(inner, Put(s, Front(inner)));
      PutPut(s, Front(inner), Opening(inner));
      PutPut(s, Front(inner) + Opening(inner), "*");
    case ReferenceTo(inner, rvalue) =>
      CollapseStep(rvalue, inner, s.turn);
      if inner.ReferenceTo? {
        assert Weight(inner) == 1 + Weight(inner.inner);
        FrontReads(ReferenceTo(inner.inner, rvalue && inner.rvalue), s, full);
      } else {
        assert s.(turn := s.turn) == s;
        FrontReads(inner, s, full);
        OpenedReads(inner, Put(s, Front(inner)));
        PutPut(s, Front(inner), Opening(inner));
        PutPut(s, Front(inner) + Opening(inner), if rvalue then "&&" else "&");
      }
    case MemberOf(cls, inner) => MemberFront(cls, inner, s, full);
    case ArrayOf(inner, bound) => FrontReads(inner, s, full);
    case FunctionOf(ret, params, quals, ref) =>
      FrontReads(ret, s, full);
      PutPut(s, Front(ret), " ");
      assert Write(Text(" ", Done), Put(s, Front(ret)), full) == Write(Done, Put(Put(s, Front(ret)), " "), full);
    case Expansion(elements) => ExpansionReads(elements, s, full);
  }

  lemma {:induction false} MemberFront(cls: Ty, inner: Ty, s: Stream, full: bool)
    requires Sensible(cls) && Sensible(inner)
    ensures Left(Tree(MemberOf(cls, inner)), s, full) == Put(s, Front(MemberOf(cls, inner)))
    decreases Weight(cls) + Weight(inner), 4
  {
    hide Opened, Closed, Put, Print, Right, Declare, Join, Has;
    var open := if IsArray(inner) || IsFunction(inner) then "(" else " ";
    FrontReads(inner, s, full);
    OpenedReads(inner, Put(s, Front(inner)));
    PutPut(s, Front(inner), open);
    TypeReads(cls, Put(s, Front(inner) + open), full);
    PutPut(s, Front(inner) + open, Declare(cls, ""));
    PutPut(s, Front(inner) + open + Declare(cls, ""), "::*");
  }

  /** The right half of the tree is what stands behind the core. */
  lemma {:induction false} BackReads(ty: Ty, s: Stream, full: bool)
    requires Sensible(ty)
    ensures Right(Tree(ty), s, full) == Put(s, Back(ty, Last(s)))
    decreases Weight(ty), 2
  {
    hide Opened, Closed, Collapse, Put, Last, Left, Print, Declare, Join, NonEmpty, Declared;
    PutPut(s, "", "");
    match ty
    case Named(_) =>
    case Qualified(inner, _) => BackReads(inner, s, full);
    case PointerTo(inner) =>
      OpenedReads(inner, s);
      ClosedBack(inner, s, full);
    case ReferenceTo(inner, rvalue) =>
      CollapseStep(rvalue, inner, s.turn);
      if inner.ReferenceTo? {
        assert Weight(inner) == 1 + Weight(inner.inner);
        BackReads(ReferenceTo(inner.inner, rvalue && inner.rvalue), s, full);
      } else {
        assert s.(turn := s.turn) == s;
        OpenedReads(inner, s);
        ClosedBack(inner, s, full);
      }
    case MemberOf(_, inner) =>
      OpenedReads(inner, s);
      ClosedBack(inner, s, full);
    case ArrayOf(inner, bound) => ArrayBack(inner, bound, s, full);
    case FunctionOf(ret, params, quals, ref) => FunctionBack(ret, params, quals, ref, s, full);
    case Expansion(_) =>
  }

  lemma {:induction false} ClosedBack(inner: Ty, s: Stream, full: bool)
    requires Sensible(inner)
    ensures Right(Tree(inner), Put(s, Closing(inner)), full)
            == Put(s, Closing(inner) + Back(inner, if Closing(inner) == "" then Last(s) else ')'))
    decreases Weight(inner), 3
  {
    hide Right, Back;
    BackReads(inner, Put(s, Closing(inner)), full);
    LastOfJoin(s.text, Closing(inner));
    PutPut(s, Closing(inner), Back(inner, if Closing(inner) == "" then Last(s) else ')'));
    assert Last(Put(s, Closing(inner))) == if Closing(inner) == "" then Last(s) else ')';
  }

  lemma {:induction false} ArrayBack(inner: Ty, bound: string, s: Stream, full: bool)
    requires Sensible(inner)
    ensures Right(Tree(ArrayOf(inner, bound)), s, full)
            == Put(s, (if Last(s) == ']' then "[" else " [") + bound + "]" + Back(inner, ']'))
    decreases Weight(inner), 3
  {
    hide Right, Back, Put, Last;
    var open := if Last(s) == ']' then "[" else " [";
    BracketsWritten(inner, bound, s, full);
    var r := Put(s, open + bound + "]");
    LastPut(s, open + bound, "]");
    BackReads(inner, r, full);
    PutPut(s, open + bound + "]", Back(inner, ']'));
    RightOfSided(Tree(ArrayOf(inner, bound)), s, full);
    assert Write(Done, Right(Tree(inner), r, full), full) == Right(Tree(inner), r, full);
  }

  lemma {:induction false} LastPut(s: Stream, a: string, b: string)
    requires b != ""
    ensures Last(Put(s, a + b)) == LastOf(b)
  {
    assert s.text + (a + b) == s.text + a + b;
  }

  lemma {:induction false} RightOfSided(n: Node, s: Stream, full: bool)
    requires n.Sided? && n.spine.Just?
    ensures Right(n, s, full) == Write(n.tail, Right(n.spine.node, Write(n.right, s, full), full), full)
  {
    hide Write;
  }

  lemma {:induction false} BracketsWritten(inner: Ty, bound: string, s: Stream, full: bool)
    ensures var n := Tree(ArrayOf(inner, bound));
            && n.Sided? && n.spine == Just(Tree(inner)) && n.tail == Done
            && Write(n.right, s, full) == Put(s, (if Last(s) == ']' then "[" else " [") + bound + "]")
  {
    hide Put, Last, Tree, Right, Left;
    var p0 := Text("]", Done);
    var p1 := Whole(Name(bound), p0);
    var p2 := Text("[", p1);
    var s1 := if Last(s) != ']' then Put(s, " ") else s;
    NamePrints(bound, Put(s1, "["), full);
    assert Write(p0, Put(Put(s1, "["), bound), full) == Put(Put(Put(s1, "["), bound), "]");
    assert Write(p1, Put(s1, "["), full) == Put(Put(Put(s1, "["), bound), "]");
    assert Write(p2, s1, full) == Put(Put(Put(s1, "["), bound), "]");
    assert Write(GapUnless(']', p2), s, full) == Put(Put(Put(s1, "["), bound), "]");
    var open := if Last(s) == ']' then "[" else " [";
    PutPut(s, " ", "[");
    assert " " + "[" == " [";
    PutPut(s, open, bound);
    PutPut(s, open + bound, "]");
    TreeOfArray(inner, bound);
  }

  lemma {:induction false} TreeOfArray(inner: Ty, bound: string)
    ensures Tree(ArrayOf(inner, bound)) == Sided(Just(Tree(inner)), false, Done, GapUnless(']', Text("[", Whole(Name(bound), Text("]", Done)))), Done, true, false)
  {
  }

  lemma {:induction false} NamePrints(name: string, s: Stream, full: bool)
    ensures Print(Name(name), s, full) == Put(s, name)
  {
  }

  lemma {:induction false} FunctionBack(ret: Ty, params: Tys, quals: Quals, ref: RefQual, s: Stream, full: bool)
    requires Sensible(ret) && AllSensible(params)
    ensures Right(Tree(FunctionOf(ret, params, quals, ref)), s, full)
            == Put(s, "(" + Join(NonEmpty(Declared(params))) + ")" + Back(ret, ')') + QualWords(quals) + RefWords(ref))
    decreases Weight(ret) + Weights(params), 3
  {
    hide Right, Back, Put, Last, Join, NonEmpty, Declared, WithComma;
    var n := Tree(FunctionOf(ret, params, quals, ref));
    var list := "(" + Join(NonEmpty(Declared(params))) + ")";
    RightOfSided(n, s, full);
    ParamsWritten(params, s, full);
    BackReads(ret, Put(s, list), full);
    LastPut(s, "(" + Join(NonEmpty(Declared(params))), ")");
    PutPut(s, list, Back(ret, ')'));
    var r := Put(s, list + Back(ret, ')'));
    TailWritten(quals, ref, r, full);
    PutPut(s, list + Back(ret, ')'), QualWords(quals));
    PutPut(s, list + Back(ret, ')') + QualWords(quals), RefWords(ref));
  }

  lemma {:induction false} TailWritten(quals: Quals, ref: RefQual, s: Stream, full: bool)
    ensures Write(Text(QualText(quals), Text(RefText(ref), Done)), s, full) == Put(Put(s, QualWords(quals)), RefWords(ref))
  {
    hide Put;
    assert QualText(quals) == QualWords(quals) && RefText(ref) == RefWords(ref);
    assert Write(Text(RefText(ref), Done), Put(s, QualWords(quals)), full) == Put(Put(s, QualWords(quals)), RefWords(ref));
  }

  lemma {:induction false} ParamsWritten(params: Tys, s: Stream, full: bool)
    requires AllSensible(params)
    ensures Write(Text("(", Listed(Trees(params), Text(")", Done))), s, full) == Put(s, "(" + Join(NonEmpty(Declared(params))) + ")")
    decreases Weights(params), 4
  {
    hide Put, Join, NonEmpty, Declared, WithComma, Trees;
    var list := Join(NonEmpty(Declared(params)));
    AllParamsRead(params, full);
    ListReads(Trees(params), Declared(params), Put(s, "("), full);
    PutPut(s, "(", list);
    PutPut(s, "(" + list, ")");
    assert Write(Text(")", Done), Put(s, "(" + list), full) == Put(Put(s, "(" + list), ")");
    assert Write(Listed(Trees(params), Text(")", Done)), Put(s, "("), full)
           == Write(Text(")", Done), WithComma(Trees(params), true, Put(s, "("), full), full);
  }

  lemma {:induction false} AllParamsRead(params: Tys, full: bool)
    requires AllSensible(params)
    ensures AllRead(Trees(params), Declared(params), full)
    decreases Weights(params), 3
  {
    hide Print, Declare, Tree;
    if params.More? {
      forall s: Stream ensures Print(Tree(params.head), s, full) == Put(s, Declare(params.head, "")) {
        TypeReads(params.head, s, full);
      }
      AllParamsRead(params.rest, full);
      assert Declared(params)[1..] == Declared(params.rest);
    }
  }

  /** Where nothing may stand in front of the core, nothing stands behind it. */
  lemma {:induction false} BlankBack(ty: Ty, last: char)
    requires Sensible(ty) && MayBeBlank(ty)
    ensures Back(ty, last) == ""
  {
    if ty.Qualified? { BlankBack(ty.inner, last); }
  }

  /**
    For every type, whatever is in the stream and whatever pack is being expanded around it: it prints as it is
    declared around nothing.
   */
  lemma {:induction false} TypeReads(ty: Ty, s: Stream, full: bool)
    requires Sensible(ty)
    ensures Print(Tree(ty), s, full) == Put(s, Declare(ty, ""))
    decreases Weight(ty), 3
  {
    hide Left, Right, Declare, Front, Back, Put, Tree;
    FrontReads(ty, s, true);
    var l := Put(s, Front(ty));
    BackReads(ty, l, true);
    DeclareIsHalves(ty, "");
    assert Front(ty) + "" == Front(ty);
    if MayBeBlank(ty) {
      BlankBack(ty, Last(l));
      BlankBack(ty, LastOf(Front(ty)));
    } else {
      FrontEnds(ty);
      LastPut(s, "", Front(ty));
      assert "" + Front(ty) == Front(ty);
    }
    PutPut(s, Front(ty), Back(ty, LastOf(Front(ty))));
    ShortcutPrintsTheSame(Tree(ty), s);
  }

  // ---------------------------------------------------------------- packs

  lemma {:induction false} CountTrees(tys: Tys)
    ensures Count(Trees(tys)) == Length(tys)
  {
    if tys.More? { CountTrees(tys.rest); }
  }

  lemma {:induction false} DeclaredAt(tys: Tys, i: nat) returns (ty: Ty)
    requires i < Length(tys) && AllSensible(tys)
    ensures Count(Trees(tys)) == Length(tys) && At(Trees(tys), i) == Tree(ty) && Sensible(ty) && Weight(ty) < Weights(tys)
    ensures |Declared(tys)| == Length(tys) && Declared(tys)[i] == Declare(ty, "")
  {
    hide Declare, Tree;
    CountTrees(tys);
    if i == 0 {
      ty := tys.head;
    } else {
      ty := DeclaredAt(tys.rest, i - 1);
    }
    DeclaredLength(tys);
  }

  lemma {:induction false} DeclaredLength(tys: Tys)
    ensures |Declared(tys)| == Length(tys)
  {
    hide Declare;
    if tys.More? { DeclaredLength(tys.rest); }
  }

  /** Element `i` of a pack, in its turn. */
  lemma {:induction false} ElementReads(tys: Tys, i: nat, s: Stream, full: bool)
    requires i < Length(tys) < Max && AllSensible(tys) && Met(Trees(tys), s.turn) == Turn(i, Length(tys))
    ensures |Declared(tys)| == Length(tys)
    ensures Print(Pack(Trees(tys)), s, full) == Put(s.(turn := Turn(i, Length(tys))), Declared(tys)[i])
    decreases Weights(tys), 4
  {
    hide Put, Declared, Trees, Tree, Declare;
    var n, u := Pack(Trees(tys)), s.(turn := Turn(i, Length(tys)));
    var ty := DeclaredAt(tys, i);
    TypeReads(ty, u, true);
    ShortcutPrintsTheSame(n, s);
    FrontReads(ty, u, true);
    PackHalves(Trees(tys), i, s, u, Front(ty));
  }

  lemma {:induction false} PackHalves(data: Nodes, i: nat, s: Stream, u: Stream, front: string)
    requires i < Count(data) < Max && u == s.(turn := Turn(i, Count(data))) && Met(data, s.turn) == u.turn
    requires Left(At(data, i), u, true) == Put(u, front)
    ensures Print(Pack(data), s, true) == Print(At(data, i), u, true)
  {
    var l := Put(u, front);
    assert Left(Pack(data), s, true) == l;
    assert Met(data, l.turn) == l.turn && l.(turn := l.turn) == l;
    assert Right(Pack(data), l, true) == Right(At(data, i), l, true);
  }

  /** A pack of types, expanded, is all of them with commas between; an empty one is nothing. */
  lemma {:induction false} ExpansionReads(tys: Tys, s: Stream, full: bool)
    requires AllSensible(tys) && Length(tys) < Max
    ensures Left(PackExpansion(Pack(Trees(tys))), s, full) == Put(s, Join(Declared(tys)))
    decreases Weights(tys), 6
  {
    hide Put, Declared, Print, Trees;
    var n := Pack(Trees(tys));
    var start := Stream(s.text, Turn(Max, Max));
    CountTrees(tys);
    DeclaredLength(tys);
    if tys.Nil? {
      EmptyPack(tys, start, full);
      Unmoved(s);
      PutPut(s, "", "");
      assert Rewound(start.(turn := Turn(0, 0)), |s.text|).(turn := s.turn) == s;
      assert Join(Declared(tys)) == "";
    } else {
      ElementReads(tys, 0, start, full);
      var first := Print(n, start, full);
      PutTurn(start, Turn(0, Length(tys)), Declared(tys)[0]);
      OthersRead(tys, 1, first, full);
      var more := JoinMore(Declared(tys)[1..]);
      PutPut(start.(turn := first.turn), Declared(tys)[0], more);
      ExpansionIs(n, s, full);
      PutTurns(s, start, Join(Declared(tys)));
    }
  }

  lemma {:induction false} EmptyPack(tys: Tys, start: Stream, full: bool)
    requires tys.Nil? && start.turn == Turn(Max, Max)
    ensures Print(Pack(Trees(tys)), start, full) == start.(turn := Turn(0, 0))
  {
  }

  lemma {:induction false} ExpansionIs(n: Node, s: Stream, full: bool)
    ensures var first := Print(n, Stream(s.text, Turn(Max, Max)), full);
            first.turn.max != Max && first.turn.max != 0 ==>
              Left(PackExpansion(n), s, full) == PrintOthers(n, 1, first.turn.max, first, full).(turn := s.turn)
  {
    hide Print, PrintOthers;
  }

  lemma {:induction false} PutTurn(s: Stream, t: Turn, a: string)
    ensures Put(s.(turn := t), a).turn == t && Put(s.(turn := t), a) == Put(s, a).(turn := t)
  {
  }

  lemma {:induction false} PutTurns(s: Stream, start: Stream, a: string)
    requires start.text == s.text
    ensures forall t :: Put(start.(turn := t), a).(turn := s.turn) == Put(s, a)
  {
  }

  lemma {:induction false} OthersRead(tys: Tys, i: nat, s: Stream, full: bool)
    requires 1 <= i <= Length(tys) < Max && AllSensible(tys) && s.turn.max == Length(tys)
    ensures |Declared(tys)| == Length(tys)
    ensures var r := PrintOthers(Pack(Trees(tys)), i, Length(tys), s, full);
            r == Put(s, JoinMore(Declared(tys)[i..])).(turn := r.turn)
    decreases Weights(tys), 5, Length(tys) - i
  {
    hide Put, Declared, Print, Trees;
    DeclaredLength(tys);
    if i < Length(tys) {
      CountTrees(tys);
      var t := Put(s, ", ").(turn := Turn(i, s.turn.max));
      ElementReads(tys, i, t, full);
      var next := Print(Pack(Trees(tys)), t, full);
      PutTurn(t, t.turn, Declared(tys)[i]);
      OthersRead(tys, i + 1, next, full);
      var rest := Declared(tys)[i..];
      assert rest[1..] == Declared(tys)[i + 1..];
      var more := JoinMore(Declared(tys)[i + 1..]);
      PutPut(s, ", ", Declared(tys)[i]);
      PutPut(s, ", " + Declared(tys)[i], more);
      Turnless(s, t.turn, ", ", Declared(tys)[i], more);
    } else {
      PutPut(s, "", "");
      assert Declared(tys)[i..] == [];
      assert s.(turn := s.turn) == s;
    }
  }

  lemma {:induction false} Turnless(s: Stream, t: Turn, a: string, b: string, c: string)
    ensures Put(Put(Put(s, a).(turn := t), b), c) == Put(Put(Put(s, a), b), c).(turn := t)
  {
  }

  // ---------------------------------------------------------------- functions

  function NamesOf(names: seq<string>): Tys { if names == [] then Nil else More(Named(names[0]), NamesOf(names[1..])) }

  function NameNodes(names: seq<string>): Nodes { if names == [] then Empty else Cons(Name(names[0]), NameNodes(names[1..])) }

  lemma {:induction false} NamesAre(names: seq<string>)
    ensures Trees(NamesOf(names)) == NameNodes(names) && Declared(NamesOf(names)) == names && AllSensible(NamesOf(names))
  {
    if names != [] {
      NamesAre(names[1..]);
      assert names == [names[0]] + names[1..];
      assert Declare(Named(names[0]), "") == names[0];
    }
  }

  /** A function over names. */
  lemma {:induction false} FunctionReads(ret: string, params: seq<string>, quals: Quals, ref: RefQual, s: Stream)
    ensures Print(FunctionType(Name(ret), NameNodes(params), quals, ref, Done), s, false)
            == Put(s, ret + " (" + Join(NonEmpty(params)) + ")" + QualWords(quals) + RefWords(ref))
  {
    hide Print, Put, Join, NonEmpty, QualWords, RefWords;
    var ty := FunctionOf(Named(ret), NamesOf(params), quals, ref);
    NamesAre(params);
    assert Tree(Named(ret)) == Name(ret);
    TypeReads(ty, s, false);
    FunctionNameText(ret, Join(NonEmpty(params)));
  }

  lemma {:induction false} FunctionNameText(ret: string, params: string)
    ensures ret + (" " + "" + "(" + params + ")") == ret + " (" + params + ")"
    ensures ret + (" " + "(*)" + "(" + params + ")") == ret + " (*)(" + params + ")"
  {
    assert " " + "" + "(" == " (";
    assert " " + "(*)" + "(" == " (*)(";
  }

  /** ... and a pointer to one. */
  lemma {:induction false} PointerToFunctionReads(ret: string, params: seq<string>, quals: Quals, ref: RefQual, s: Stream)
    ensures Print(Pointer(FunctionType(Name(ret), NameNodes(params), quals, ref, Done)), s, false)
            == Put(s, ret + " (*)(" + Join(NonEmpty(params)) + ")" + QualWords(quals) + RefWords(ref))
  {
    hide Print, Put, Join, NonEmpty, QualWords, RefWords;
    var fun := FunctionOf(Named(ret), NamesOf(params), quals, ref);
    NamesAre(params);
    assert Tree(Named(ret)) == Name(ret);
    assert Sensible(Named(ret)) && Sensible(fun) && Tree(fun) == FunctionType(Name(ret), NameNodes(params), quals, ref, Done);
    TypeReads(PointerTo(fun), s, false);
    assert "(" + ("*" + "") + ")" == "(*)";
    assert Around(fun, "*" + "") == "(*)";
    assert Declare(PointerTo(fun), "") == Declare(fun, "(*)");
    assert Declare(fun, "(*)") == Declare(Named(ret), " " + "(*)" + "(" + Join(NonEmpty(params)) + ")") + QualWords(quals) + RefWords(ref);
    FunctionNameText(ret, Join(NonEmpty(params)));
  }

  /** Something follows the core of the type. */
  predicate HasBack(ty: Ty) {
    match ty
    case Named(_) => false
    case Qualified(inner, _) => HasBack(inner)
    case PointerTo(inner) => HasBack(inner)
    case ReferenceTo(inner, _) => HasBack(inner)
    case MemberOf(_, inner) => HasBack(inner)
    case ArrayOf(_, _) => true
    case FunctionOf(_, _, _, _) => true
    case Expansion(_) => false
  }

  lemma {:induction false} BackKnown(ty: Ty)
    ensures Cached(Rhs, Tree(ty)) == if HasBack(ty) then Yes else No
  {
    match ty
    case Qualified(inner, _) => BackKnown(inner);
    case PointerTo(inner) => BackKnown(inner);
    case ReferenceTo(inner, _) => BackKnown(inner);
    case MemberOf(_, inner) => BackKnown(inner);
    case _ =>
  }

  /** A declaration without a return type. */
  lemma {:induction false} DeclarationReads(name: string, params: Tys, quals: Quals, ref: RefQual, s: Stream)
    requires AllSensible(params)
    ensures Print(FunctionEncoding(Nothing, Name(name), Trees(params), Done, quals, ref), s, false)
            == Put(s, name + "(" + Join(NonEmpty(Declared(params))) + ")" + QualWords(quals) + RefWords(ref))
  {
    hide Put, Join, NonEmpty, QualWords, RefWords, Declared, Trees, Write, QualText, RefText;
    var list := "(" + Join(NonEmpty(Declared(params))) + ")";
    NameWritten(name, s);
    var l := Put(s, name);
    ParamsWritten(params, l, false);
    TailWritten(quals, ref, Put(l, list), false);
    PutPut(s, name, list);
    PutPut(s, name + list, QualWords(quals));
    PutPut(s, name + list + QualWords(quals), RefWords(ref));
    ListText(name, Join(NonEmpty(Declared(params))));
  }

  lemma {:induction false} ListText(name: string, params: string)
    ensures name + ("(" + params + ")") == name + "(" + params + ")"
  {
  }

  lemma {:induction false} NameWritten(name: string, s: Stream)
    ensures Write(Whole(Name(name), Done), s, false) == Put(s, name)
  {
    NamePrints(name, s, false);
    assert Write(Done, Put(s, name), false) == Put(s, name);
  }

  /** A declaration is its name with the parameters, declared as the return type, with a gap where nothing of the type follows. */
  lemma {:induction false} ReturningReads(ret: Ty, name: string, params: Tys, quals: Quals, ref: RefQual, s: Stream)
    requires Sensible(ret) && AllSensible(params)
    ensures Print(FunctionEncoding(Just(Tree(ret)), Name(name), Trees(params), Done, quals, ref), s, false)
            == Put(s, Declare(ret, (if HasBack(ret) then "" else " ") + name + "(" + Join(NonEmpty(Declared(params))) + ")")
                      + QualWords(quals) + RefWords(ref))
  {
    hide Put, Join, NonEmpty, QualWords, RefWords, Declared, Trees, Tree, Write, QualText, RefText, Declare, Front, Back, Last;
    var gap := if HasBack(ret) then "" else " ";
    var params' := Join(NonEmpty(Declared(params)));
    var list := "(" + params' + ")";
    var f := Front(ret);
    FrontReads(ret, s, false);
    BackKnown(ret);
    PutPut(s, f, gap);
    assert Spaced(Tree(ret), true, Put(s, f)) == Put(s, f + gap);
    NameWritten(name, Put(s, f + gap));
    PutPut(s, f + gap, name);
    ParamsWritten(params, Put(s, f + gap + name), false);
    PutPut(s, f + gap + name, list);
    var r := Put(s, f + gap + name + list);
    LastPut(s, f + gap + name + ("(" + params'), ")");
    ListText(f + gap + name, params');
    Assoc(f + gap + name, "(" + params', ")");
    BackReads(ret, r, false);
    PutPut(s, f + gap + name + list, Back(ret, ')'));
    TailWritten(quals, ref, Put(r, Back(ret, ')')), false);
    DeclareIsHalves(ret, gap + name + "(" + params' + ")");
    CoreText(f, gap, name, params', Back(ret, ')'));
    LastOfJoin(f + (gap + name + "(" + params'), ")");
    Assoc(f, gap + name + "(" + params', ")");
    var whole := f + gap + name + list + Back(ret, ')');
    PutPut(s, whole, QualWords(quals));
    PutPut(s, whole + QualWords(quals), RefWords(ref));
  }

  lemma {:induction false} CoreText(f: string, gap: string, name: string, params: string, back: string)
    ensures f + (gap + name + "(" + params + ")") + back == f + gap + name + ("(" + params + ")") + back
  {
  }
}
