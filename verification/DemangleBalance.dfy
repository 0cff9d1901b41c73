/**
  What is printed has balanced parentheses: each one that a left half opens is closed by the right half
  of the same node.
 */
module DemangleBalance {
  import opened DemangleNodes
  import opened DemanglePrint
  import opened DemangleShortcut

  // ---------------------------------------------------------------- printing only adds

  predicate Extends(t: string, u: string) { |t| <= |u| && u[..|t|] == t }

  lemma {:induction false} PutExtends(s: Stream, t: string)
    ensures Extends(s.text, Put(s, t).text)
  {
  }

  lemma {:induction false} Chain(t: string, u: string, v: string)
    requires Extends(t, u) && Extends(u, v)
    ensures Extends(t, v)
  {
    assert v[..|t|] == v[..|u|][..|t|];
  }

  lemma {:induction false} RewindExtends(s: Stream, r: Stream)
    requires Extends(s.text, r.text)
    ensures Rewound(r, |s.text|).text == s.text && Rewound(r, |s.text|).turn == r.turn
  {
  }

  lemma {:induction false} PrintExtends(n: Node, s: Stream, full: bool)
    ensures Extends(s.text, Print(n, s, full).text)
    decreases Size(n), 1
  {
    hide Extends, Left, Right;
    LeftExtends(n, s, full);
    var l := Left(n, s, full);
    RightExtends(n, l, full);
    Chain(s.text, l.text, Right(n, l, full).text);
  }

  lemma {:induction false} LeftExtends(n: Node, s: Stream, full: bool)
    ensures Extends(s.text, Left(n, s, full).text)
    decreases Size(n), 0
  {
    hide Extends, Has, Collapse, Grouped, Right;
    PutExtends(s, "");
    assert Put(s, "").text == s.text;
    match n
    case Name(name) => PutExtends(s, name);
    case Written(parts) => WriteExtends(parts, s, full);
    case AbiTag(base, tag) =>
      LeftExtends(base, s, full);
      ThenPut(s, Left(base, s, full), "[abi:" + tag + "]");
    case ObjCProto(ty, protocol) =>
      PrintExtends(ty, s, full);
      ThenPut(s, Print(ty, s, full), "<" + protocol + ">");
    case Qual(child, quals) =>
      LeftExtends(child, s, full);
      ThenPut(s, Left(child, s, full), QualText(quals));
    case Pointer(pointee) =>
      if IsObjCObject(pointee) {
        PutExtends(s, "id<" + pointee.protocol + ">");
      } else {
        LeftExtends(pointee, s, full);
        ThenOpened(s, pointee, Left(pointee, s, full), true);
        ThenPut(s, Opened(pointee, Left(pointee, s, full), true), "*");
      }
    case Reference(referent, rvalue) =>
      var (kind, target, t) := Collapse(rvalue, referent, s.turn);
      LeftExtends(target, s.(turn := t), full);
      ThenOpened(s, target, Left(target, s.(turn := t), full), true);
      ThenPut(s, Opened(target, Left(target, s.(turn := t), full), true), if kind then "&&" else "&");
    case MemberPointer(classType, memberType) =>
      LeftExtends(memberType, s, full);
      ThenOpened(s, memberType, Left(memberType, s, full), false);
      var o := Opened(memberType, Left(memberType, s, full), false);
      PrintExtends(classType, o, full);
      Chain(s.text, o.text, Print(classType, o, full).text);
      ThenPut(s, Print(classType, o, full), "::*");
    case Sided(spine, gap, left, _, _, _, _) =>
      if spine.Just? {
        var l := Left(spine.node, s, full);
        LeftExtends(spine.node, s, full);
        ThenSpaced(s, spine.node, gap, l);
        WriteExtends(left, Spaced(spine.node, gap, l), full);
        Chain(s.text, Spaced(spine.node, gap, l).text, Write(left, Spaced(spine.node, gap, l), full).text);
      } else {
        WriteExtends(left, s, full);
      }
    case Pack(data) =>
      var t := Met(data, s.turn);
      if t.index < Count(data) { LeftExtends(At(data, t.index), s.(turn := t), full); }
    case PackExpansion(pattern) =>
      var start := Stream(s.text, Turn(Max, Max));
      PrintExtends(pattern, start, full);
      var first := Print(pattern, start, full);
      ThenPut(s, first, "...");
      RewindExtends(s, first);
      OthersExtend(pattern, 1, first.turn.max, first, full);
      Chain(s.text, first.text, PrintOthers(pattern, 1, first.turn.max, first, full).text);
    case Forward(ref) => LeftExtends(ref, s, full);
  }

  lemma {:induction false} ThenPut(s: Stream, r: Stream, t: string)
    requires Extends(s.text, r.text)
    ensures Extends(s.text, Put(r, t).text)
  {
    PutExtends(r, t);
    Chain(s.text, r.text, Put(r, t).text);
  }

  lemma {:induction false} ThenOpened(s: Stream, n: Node, r: Stream, spaced: bool)
    requires Extends(s.text, r.text)
    ensures Extends(s.text, Opened(n, r, spaced).text)
  {
    hide Extends, Has, Grouped;
    var (a, t) := Has(Array, n, r.turn);
    var (g, u) := Grouped(n, if spaced then t else r.turn);
    ThenPut(s, r, (if a then " " else "") + (if g then "(" else ""));
    ThenPut(s, r, if g then "(" else " ");
  }

  lemma {:induction false} ThenSpaced(s: Stream, n: Node, gap: bool, r: Stream)
    requires Extends(s.text, r.text)
    ensures Extends(s.text, Spaced(n, gap, r).text)
  {
    hide Extends, Has;
    ThenPut(s, r, "");
    ThenPut(s, r, " ");
  }

  lemma {:induction false} ClosedExtends(n: Node, s: Stream)
    ensures Extends(s.text, Closed(n, s).text)
  {
    hide Extends, Grouped;
    PutExtends(s, ")");
    PutExtends(s, "");
  }

  lemma {:induction false} RightExtends(n: Node, s: Stream, full: bool)
    ensures Extends(s.text, Right(n, s, full).text)
    decreases Size(n), 0
  {
    hide Extends, Has, Collapse, Grouped, Left, Closed;
    PutExtends(s, "");
    assert Put(s, "").text == s.text;
    match n
    case Qual(child, _) => RightExtends(child, s, full);
    case Pointer(pointee) =>
      ClosedExtends(pointee, s);
      RightExtends(pointee, Closed(pointee, s), full);
      Chain(s.text, Closed(pointee, s).text, Right(pointee, Closed(pointee, s), full).text);
    case Reference(referent, rvalue) =>
      var (_, target, t) := Collapse(rvalue, referent, s.turn);
      var c := Closed(target, s.(turn := t));
      ClosedExtends(target, s.(turn := t));
      RightExtends(target, c, full);
      Chain(s.text, c.text, Right(target, c, full).text);
    case MemberPointer(_, memberType) =>
      ClosedExtends(memberType, s);
      RightExtends(memberType, Closed(memberType, s), full);
      Chain(s.text, Closed(memberType, s).text, Right(memberType, Closed(memberType, s), full).text);
    case Sided(spine, _, _, right, tail, _, _) =>
      WriteExtends(right, s, full);
      var r := Write(right, s, full);
      if spine.Just? {
        RightExtends(spine.node, r, full);
        var q := Right(spine.node, r, full);
        Chain(s.text, r.text, q.text);
        WriteExtends(tail, q, full);
        Chain(s.text, q.text, Write(tail, q, full).text);
      } else {
        WriteExtends(tail, r, full);
        Chain(s.text, r.text, Write(tail, r, full).text);
      }
    case Pack(data) =>
      var t := Met(data, s.turn);
      if t.index < Count(data) { RightExtends(At(data, t.index), s.(turn := t), full); }
    case Forward(ref) => RightExtends(ref, s, full);
    case _ =>
  }

  lemma {:induction false} OthersExtend(pattern: Node, i: nat, end: nat, s: Stream, full: bool)
    ensures Extends(s.text, PrintOthers(pattern, i, end, s, full).text)
    decreases Size(pattern), 2, end - i
  {
    hide Extends, Print;
    PutExtends(s, "");
    assert Put(s, "").text == s.text;
    if i < end {
      var t := Put(s, ", ").(turn := Turn(i, s.turn.max));
      PutExtends(s, ", ");
      PrintExtends(pattern, t, full);
      var r := Print(pattern, t, full);
      Chain(s.text, t.text, r.text);
      OthersExtend(pattern, i + 1, end, r, full);
      Chain(s.text, r.text, PrintOthers(pattern, i + 1, end, r, full).text);
    }
  }

  lemma {:induction false} WriteExtends(ps: Parts, s: Stream, full: bool)
    ensures Extends(s.text, Write(ps, s, full).text)
    decreases SizeParts(ps), 0
  {
    hide Extends, Print, Left, WithComma;
    PutExtends(s, "");
    assert Put(s, "").text == s.text;
    if ps.Done? { return; }
    var r := match ps
      case Text(text, _) => Put(s, text)
      case Whole(node, _) => Print(node, s, full)
      case LeftHalf(node, _) => Left(node, s, full)
      case Listed(nodes, _) => WithComma(nodes, true, s, full)
      case GapUnless(last, _) => if Last(s) != last then Put(s, " ") else s
      case GapIf(last, _) => if Last(s) == last then Put(s, " ") else s;
    match ps {
      case Text(text, _) => PutExtends(s, text);
      case Whole(node, _) => PrintExtends(node, s, full);
      case LeftHalf(node, _) => LeftExtends(node, s, full);
      case Listed(nodes, _) => WithCommaExtends(nodes, true, s, full);
      case _ => PutExtends(s, " ");
    }
    WriteExtends(ps.more, r, full);
    Chain(s.text, r.text, Write(ps.more, r, full).text);
  }

  lemma {:induction false} WithCommaExtends(ns: Nodes, first: bool, s: Stream, full: bool)
    ensures Extends(s.text, WithComma(ns, first, s, full).text)
    decreases SizeNodes(ns), 0
  {
    hide Extends, Print;
    PutExtends(s, "");
    assert Put(s, "").text == s.text;
    if ns.Cons? {
      var comma := if first then s else Put(s, ", ");
      PutExtends(s, ", ");
      PrintExtends(ns.head, comma, full);
      var r := Print(ns.head, comma, full);
      Chain(s.text, comma.text, r.text);
      if |r.text| == |comma.text| {
        RewindExtends(s, r);
        WithCommaExtends(ns.rest, first, Rewound(r, |s.text|), full);
      } else {
        WithCommaExtends(ns.rest, false, r, full);
        Chain(s.text, r.text, WithComma(ns.rest, false, r, full).text);
      }
    }
  }

  // ---------------------------------------------------------------- depth of parentheses

  function Step(d: int, c: char): int {
    if d < 0 then -1 else if c == '(' then d + 1 else if c == ')' then d - 1 else d
  }

  /** The depth behind `t` when it is `d` before; negative once more was closed than opened. */
  function Scan(d: int, t: string): int {
    if t == [] then d else Step(Scan(d, t[..|t| - 1]), t[|t| - 1])
  }

  predicate Even(t: string) { Scan(0, t) == 0 }

  predicate Plain(t: string) { forall i :: 0 <= i < |t| ==> t[i] != '(' && t[i] != ')' }

  lemma {:induction false} ScanConcat(d: int, t: string, u: string)
    ensures Scan(d, t + u) == Scan(Scan(d, t), u)
  {
    if u == [] {
      assert t + u == t;
    } else {
      assert (t + u)[..|t + u| - 1] == t + u[..|u| - 1];
      ScanConcat(d, t, u[..|u| - 1]);
    }
  }

  lemma {:induction false} ScanHigher(d: int, k: nat, t: string)
    requires d >= 0 && Scan(d, t) >= 0
    ensures Scan(d + k, t) == Scan(d, t) + k
  {
    if t != [] { ScanHigher(d, k, t[..|t| - 1]); }
  }

  lemma {:induction false} ScanPlain(d: int, t: string)
    requires d >= 0 && Plain(t)
    ensures Scan(d, t) == d
  {
    if t != [] { ScanPlain(d, t[..|t| - 1]); }
  }

  lemma {:induction false} ScanOne(d: int)
    requires d >= 0
    ensures Scan(d, "(") == d + 1 && Scan(d, ")") == d - 1 && Scan(d, "") == d && Scan(d, " ") == d && Scan(d, " (") == d + 1
  {
    assert "("[..0] == "" && ")"[..0] == "" && " "[..0] == "" && " ("[..1] == " ";
    assert Scan(d, "") == d;
  }

  function Depth(s: Stream): int { Scan(0, s.text) }

  lemma {:induction false} PutDepth(s: Stream, t: string)
    ensures Depth(Put(s, t)) == Scan(Depth(s), t)
  {
    ScanConcat(0, s.text, t);
  }

  lemma {:induction false} PutEven(s: Stream, t: string)
    requires Depth(s) >= 0 && (Even(t) || Plain(t))
    ensures Depth(Put(s, t)) == Depth(s)
  {
    PutDepth(s, t);
    if Plain(t) { ScanPlain(Depth(s), t); } else { ScanHigher(0, Depth(s), t); }
  }

  // ---------------------------------------------------------------- texts that keep the balance

  /** Text of the parts, one after the other, with everything else taken to be balanced. */
  function ScanParts(d: int, ps: Parts): int
    decreases ps
  {
    if d < 0 then -1
    else
      match ps
      case Done => d
      case Text(text, more) => ScanParts(Scan(d, text), more)
      case _ => ScanParts(d, ps.more)
  }

  /** Names and texts are balanced, and no child is printed by its left half only. */
  predicate Ok(n: Node) {
    match n
    case Name(name) => Even(name)
    case Written(parts) => OkParts(parts) && ScanParts(0, parts) == 0
    case AbiTag(base, tag) => Ok(base) && Cached(Rhs, base) == No && Even("[abi:" + tag + "]")
    case ObjCProto(ty, protocol) => Ok(ty) && Even("<" + protocol + ">") && Even("id<" + protocol + ">")
    case Qual(child, _) => Ok(child)
    case Pointer(pointee) => Ok(pointee)
    case Reference(referent, _) => Ok(referent)
    case MemberPointer(classType, memberType) => Ok(classType) && Ok(memberType)
    case Sided(spine, _, left, right, tail, _, _) =>
      && (spine.Just? ==> Ok(spine.node)) && OkParts(left) && OkParts(right) && OkParts(tail)
      && ScanParts(0, left) == 0 && ScanParts(0, right) == 0 && ScanParts(0, tail) == 0
    case Pack(data) => OkNodes(data)
    case PackExpansion(pattern) => Ok(pattern)
    case Forward(ref) => Ok(ref)
  }

  predicate OkNodes(ns: Nodes) { ns.Empty? || (Ok(ns.head) && OkNodes(ns.rest)) }

  predicate OkParts(ps: Parts) {
    match ps
    case Done => true
    case Whole(node, more) => Ok(node) && OkParts(more)
    case LeftHalf(_, _) => false
    case Listed(nodes, more) => OkNodes(nodes) && OkParts(more)
    case _ => OkParts(ps.more)
  }

  lemma {:induction false} OkAt(ns: Nodes, i: nat)
    requires OkNodes(ns) && i < Count(ns)
    ensures Ok(At(ns, i))
  {
    if i > 0 { OkAt(ns.rest, i - 1); }
  }

  lemma {:induction false} OkSyntax(n: Node, t: Turn)
    requires Ok(n)
    ensures Ok(Syntax(n, t).0)
    decreases Size(n)
  {
    match n
    case Pack(data) =>
      var u := Met(data, t);
      if u.index < Count(data) {
        OkAt(data, u.index);
        OkSyntax(At(data, u.index), u);
      }
    case Forward(ref) => OkSyntax(ref, t);
    case _ =>
  }

  lemma {:induction false} OkCollapse(rvalue: bool, n: Node, t: Turn)
    requires Ok(n)
    ensures Ok(Collapse(rvalue, n, t).1)
    decreases Size(n)
  {
    OkSyntax(n, t);
    var (syntax, u) := Syntax(n, t);
    if syntax.Reference? { OkCollapse(rvalue && syntax.rvalue, syntax.referent, u); }
  }

  // ---------------------------------------------------------------- what a left half leaves open

  /** The element of a pack that is printed in turn `t`: its first where no expansion has been set up. */
  function Place(t: Turn): nat { if Settled(t) then t.index else 0 }

  /** The parentheses between the left and the right half of `n`, in turn `t`. */
  function Opens(n: Node, t: Turn): nat
    decreases Size(n)
  {
    match n
    case Qual(child, _) => Opens(child, t)
    case Pointer(pointee) => if IsObjCObject(pointee) then 0 else Opens(pointee, t) + Paren(pointee, t)
    case Reference(referent, rvalue) =>
      var target := Collapse(rvalue, referent, t).1;
      Opens(target, t) + Paren(target, t)
    case MemberPointer(_, memberType) => Opens(memberType, t) + Paren(memberType, t)
    case Sided(spine, _, _, _, _, _, _) => if spine.Just? then Opens(spine.node, t) else 0
    case Pack(data) => if Place(t) < Count(data) then Opens(At(data, Place(t)), t) else 0
    case Forward(ref) => Opens(ref, t)
    case _ => 0
  }

  function Paren(n: Node, t: Turn): nat { if Grouped(n, t).0 then 1 else 0 }

  /** All this depends on the place alone, which printing does not change. */
  lemma {:induction false} LaterSamePlace(t: Turn, u: Turn)
    requires Later(t, u)
    ensures Place(t) == Place(u)
  {
  }

  lemma {:induction false} MetPlace(data: Nodes, t: Turn)
    ensures Met(data, t).index == Place(t) == Place(Met(data, t))
  {
  }

  lemma {:induction false} HasSamePlace(w: Flag, n: Node, t: Turn, u: Turn)
    requires Place(t) == Place(u)
    ensures Has(w, n, t).0 == Has(w, n, u).0
    decreases Size(n)
  {
    if Cached(w, n) == Unknown {
      match n
      case Qual(child, _) => HasSamePlace(w, child, t, u);
      case Pointer(pointee) => HasSamePlace(w, pointee, t, u);
      case Reference(referent, _) => HasSamePlace(w, referent, t, u);
      case MemberPointer(_, memberType) => HasSamePlace(w, memberType, t, u);
      case Pack(data) =>
        MetPlace(data, t);
        MetPlace(data, u);
        if Place(t) < Count(data) { HasSamePlace(w, At(data, Place(t)), Met(data, t), Met(data, u)); }
      case Forward(ref) => HasSamePlace(w, ref, t, u);
      case _ =>
    }
  }

  lemma {:induction false} ParenSamePlace(n: Node, t: Turn, u: Turn)
    requires Place(t) == Place(u)
    ensures Paren(n, t) == Paren(n, u)
  {
    hide Has, Place;
    HasSamePlace(Array, n, t, u);
    var t', u' := Has(Array, n, t).1, Has(Array, n, u).1;
    HasLater(Array, n, t);
    LaterSamePlace(t, t');
    HasLater(Array, n, u);
    LaterSamePlace(u, u');
    HasSamePlace(Function, n, t', u');
  }

  lemma {:induction false} SyntaxSamePlace(n: Node, t: Turn, u: Turn)
    requires Place(t) == Place(u)
    ensures Syntax(n, t).0 == Syntax(n, u).0
    decreases Size(n)
  {
    match n
    case Pack(data) =>
      MetPlace(data, t);
      MetPlace(data, u);
      if Place(t) < Count(data) { SyntaxSamePlace(At(data, Place(t)), Met(data, t), Met(data, u)); }
    case Forward(ref) => SyntaxSamePlace(ref, t, u);
    case _ =>
  }

  /** The node a reference stands for is the same when its right half is printed. */
  lemma {:induction false} SameTarget(rvalue: bool, n: Node, t: Turn, u: Turn)
    requires Place(t) == Place(u)
    ensures Collapse(rvalue, n, t).1 == Collapse(rvalue, n, u).1
    decreases Size(n)
  {
    hide Place;
    SyntaxSamePlace(n, t, u);
    var (syntax, t') := Syntax(n, t);
    var u' := Syntax(n, u).1;
    SyntaxLater(n, t);
    LaterSamePlace(t, t');
    SyntaxLater(n, u);
    LaterSamePlace(u, u');
    if syntax.Reference? { SameTarget(rvalue && syntax.rvalue, syntax.referent, t', u'); }
  }

  lemma {:induction false} OpensSamePlace(n: Node, t: Turn, u: Turn)
    requires Place(t) == Place(u)
    ensures Opens(n, t) == Opens(n, u)
    decreases Size(n)
  {
    hide Place, Paren, Collapse;
    match n
    case Qual(child, _) => OpensSamePlace(child, t, u);
    case Pointer(pointee) =>
      OpensSamePlace(pointee, t, u);
      ParenSamePlace(pointee, t, u);
    case Reference(referent, rvalue) =>
      var target := Collapse(rvalue, referent, t).1;
      SameTarget(rvalue, referent, t, u);
      OpensSamePlace(target, t, u);
      ParenSamePlace(target, t, u);
    case MemberPointer(_, memberType) =>
      OpensSamePlace(memberType, t, u);
      ParenSamePlace(memberType, t, u);
    case Sided(spine, _, _, _, _, _, _) => if spine.Just? { OpensSamePlace(spine.node, t, u); }
    case Pack(data) => if Place(t) < Count(data) { OpensSamePlace(At(data, Place(t)), t, u); }
    case Forward(ref) => OpensSamePlace(ref, t, u);
    case _ =>
  }

  lemma {:induction false} OpensLater(n: Node, t: Turn, u: Turn)
    requires Later(t, u)
    ensures Opens(n, t) == Opens(n, u) && Paren(n, t) == Paren(n, u)
  {
    hide Opens, Paren, Place;
    LaterSamePlace(t, u);
    OpensSamePlace(n, t, u);
    ParenSamePlace(n, t, u);
  }

  /** A node without a right half leaves nothing open. */
  lemma {:induction false} NoRightOpensNothing(n: Node, t: Turn)
    requires Cached(Rhs, n) == No
    ensures Opens(n, t) == 0
    decreases Size(n)
  {
    match n
    case Qual(child, _) => NoRightOpensNothing(child, t);
    case Pointer(pointee) =>
      if !IsObjCObject(pointee) {
        NoRightNoGroup(pointee);
        NoRightOpensNothing(pointee, t);
      }
    case Reference(referent, rvalue) =>
      CollapseWithoutRight(rvalue, referent, t);
      var target := Collapse(rvalue, referent, t).1;
      NoRightNoGroup(target);
      NoRightOpensNothing(target, t);
    case MemberPointer(_, memberType) =>
      NoRightNoGroup(memberType);
      NoRightOpensNothing(memberType, t);
    case Pack(data) =>
      if Place(t) < Count(data) {
        NoneOf(Rhs, data, Place(t));
        NoRightOpensNothing(At(data, Place(t)), t);
      }
    case _ =>
  }

  // ---------------------------------------------------------------- the balance

  lemma {:induction false} OpenedDepth(n: Node, s: Stream, spaced: bool)
    requires Depth(s) >= 0
    ensures Depth(Opened(n, s, spaced)) == Depth(s) + Paren(n, s.turn)
  {
    hide Has, Grouped, Scan;
    var (a, t) := Has(Array, n, s.turn);
    var u := if spaced then t else s.turn;
    HasLater(Array, n, s.turn);
    LaterSamePlace(s.turn, t);
    ParenSamePlace(n, s.turn, u);
    var g := Grouped(n, u).0;
    var text := if spaced then (if a then " " else "") + (if g then "(" else "") else if g then "(" else " ";
    assert text == (if g then (if spaced && a then " (" else "(") else if spaced && !a then "" else " ");
    PutDepth(s, text);
    DepthOfText(Opened(n, s, spaced), Put(s, text));
    ScanOne(Depth(s));
  }

  lemma {:induction false} ClosedDepth(n: Node, s: Stream)
    requires Depth(s) >= Paren(n, s.turn)
    ensures Depth(Closed(n, s)) == Depth(s) - Paren(n, s.turn)
  {
    hide Grouped, Scan;
    PutDepth(s, if Grouped(n, s.turn).0 then ")" else "");
    DepthOfText(Closed(n, s), Put(s, if Grouped(n, s.turn).0 then ")" else ""));
    ScanOne(Depth(s));
  }

  lemma {:induction false} SpacedDepth(n: Node, gap: bool, s: Stream)
    requires Depth(s) >= 0
    ensures Depth(Spaced(n, gap, s)) == Depth(s)
  {
    hide Has, Scan;
    PutDepth(s, if Has(Rhs, n, s.turn).0 then "" else " ");
    DepthOfText(Spaced(n, true, s), Put(s, if Has(Rhs, n, s.turn).0 then "" else " "));
    ScanOne(Depth(s));
  }

  lemma {:induction false} DepthOfText(s: Stream, r: Stream)
    requires s.text == r.text
    ensures Depth(s) == Depth(r)
  {
  }

  lemma {:induction false} QualTextPlain(q: Quals)
    ensures Plain(QualText(q))
  {
  }

  /** The whole of a node leaves the parentheses as they were. */
  lemma {:induction false} PrintBalanced(n: Node, s: Stream)
    requires Ok(n) && Depth(s) >= 0
    ensures Depth(Print(n, s, false)) == Depth(s)
    decreases Size(n), 1
  {
    hide Left, Right, Opens, Depth, Ok;
    LeftBalanced(n, s);
    LeftLater(n, s, false);
    var l := Left(n, s, false);
    OpensLater(n, s.turn, l.turn);
    RightBalanced(n, l);
    if Cached(Rhs, n) == No { NoRightOpensNothing(n, s.turn); }
  }

  /** A left half opens the parentheses counted for the node. */
  lemma {:induction false} LeftBalanced(n: Node, s: Stream)
    requires Ok(n) && Depth(s) >= 0
    ensures Depth(Left(n, s, false)) == Depth(s) + Opens(n, s.turn)
    decreases Size(n), 0
  {
    hide Depth, Even, Paren, Has, Collapse, Opened, Right, Cached;
    match n
    case Name(name) => PutEven(s, name);
    case Written(parts) => WriteBalanced(parts, s, 0);
    case AbiTag(base, tag) =>
      LeftBalanced(base, s);
      NoRightOpensNothing(base, s.turn);
      PutEven(Left(base, s, false), "[abi:" + tag + "]");
    case ObjCProto(ty, protocol) =>
      PrintBalanced(ty, s);
      PutEven(Print(ty, s, false), "<" + protocol + ">");
    case Qual(child, quals) =>
      LeftBalanced(child, s);
      QualTextPlain(quals);
      PutEven(Left(child, s, false), QualText(quals));
    case Pointer(pointee) =>
      if IsObjCObject(pointee) {
        PutEven(s, "id<" + pointee.protocol + ">");
      } else {
        var l := Left(pointee, s, false);
        LeftBalanced(pointee, s);
        LeftLater(pointee, s, false);
        OpensLater(pointee, s.turn, l.turn);
        OpenedDepth(pointee, l, true);
        PutEven(Opened(pointee, l, true), "*");
      }
    case Reference(referent, rvalue) => ReferenceLeft(n, s);
    case MemberPointer(classType, memberType) => MemberLeft(n, s);
    case Sided(spine, gap, left, _, _, _, _) => SidedLeft(n, s);
    case Pack(data) =>
      var t := Met(data, s.turn);
      MetPlace(data, s.turn);
      DepthOfText(s, s.(turn := t));
      if t.index < Count(data) {
        OkAt(data, t.index);
        LeftBalanced(At(data, t.index), s.(turn := t));
        OpensSamePlace(At(data, t.index), s.turn, t);
      }
    case PackExpansion(pattern) => ExpansionLeft(n, s);
    case Forward(ref) => LeftBalanced(ref, s);
  }

  lemma {:induction false} ReferenceLeft(n: Node, s: Stream)
    requires Ok(n) && Depth(s) >= 0 && n.Reference?
    ensures Depth(Left(n, s, false)) == Depth(s) + Opens(n, s.turn)
    decreases Size(n), 0, 0
  {
    hide Depth, Even, Paren, Has, Opened, Right;
    var (kind, target, t) := Collapse(n.rvalue, n.referent, s.turn);
    OkCollapse(n.rvalue, n.referent, s.turn);
    CollapseLater(n.rvalue, n.referent, s.turn);
    hide Collapse;
    var from := s.(turn := t);
    var l := Left(target, from, false);
    DepthOfText(s, from);
    LeftBalanced(target, from);
    OpensLater(target, s.turn, t);
    LeftLater(target, from, false);
    OpensLater(target, t, l.turn);
    OpenedDepth(target, l, true);
    PutEven(Opened(target, l, true), if kind then "&&" else "&");
  }

  lemma {:induction false} MemberLeft(n: Node, s: Stream)
    requires Ok(n) && Depth(s) >= 0 && n.MemberPointer?
    ensures Depth(Left(n, s, false)) == Depth(s) + Opens(n, s.turn)
    decreases Size(n), 0, 0
  {
    hide Depth, Even, Paren, Has, Opened, Right, Collapse, Print;
    var member := n.memberType;
    var l := Left(member, s, false);
    LeftBalanced(member, s);
    LeftLater(member, s, false);
    OpensLater(member, s.turn, l.turn);
    OpenedDepth(member, l, false);
    PrintBalanced(n.classType, Opened(member, l, false));
    PutEven(Print(n.classType, Opened(member, l, false), false), "::*");
  }

  lemma {:induction false} SidedLeft(n: Node, s: Stream)
    requires Ok(n) && Depth(s) >= 0 && n.Sided?
    ensures Depth(Left(n, s, false)) == Depth(s) + Opens(n, s.turn)
    decreases Size(n), 0, 0
  {
    hide Depth, Even, Paren, Has, Spaced, Right, Collapse, Write, ScanParts;
    if n.spine.Just? {
      var spine := n.spine.node;
      LeftBalanced(spine, s);
      SpacedDepth(spine, n.gap, Left(spine, s, false));
      WriteBalanced(n.left, Spaced(spine, n.gap, Left(spine, s, false)), 0);
    } else {
      WriteBalanced(n.left, s, 0);
    }
  }

  lemma {:induction false} ExpansionLeft(n: Node, s: Stream)
    requires Ok(n) && Depth(s) >= 0 && n.PackExpansion?
    ensures Depth(Left(n, s, false)) == Depth(s)
    decreases Size(n), 0, 0
  {
    hide Depth, Even, Print, PrintOthers, Right, Rewound;
    var start := Stream(s.text, Turn(Max, Max));
    DepthOfText(s, start);
    PrintBalanced(n.pattern, start);
    PrintExtends(n.pattern, start, false);
    var first := Print(n.pattern, start, false);
    RewindExtends(s, first);
    DepthOfText(s, Rewound(first, |s.text|));
    PutEven(first, "...");
    OthersBalanced(n.pattern, 1, first.turn.max, first);
    var all := PrintOthers(n.pattern, 1, first.turn.max, first, false);
    DepthOfText(all, all.(turn := s.turn));
    DepthOfText(Put(first, "..."), Put(first, "...").(turn := s.turn));
    DepthOfText(s, Rewound(first, |s.text|).(turn := s.turn));
  }

  lemma {:induction false} OthersBalanced(pattern: Node, i: nat, end: nat, s: Stream)
    requires Ok(pattern) && Depth(s) >= 0
    ensures Depth(PrintOthers(pattern, i, end, s, false)) == Depth(s)
    decreases Size(pattern), 2, end - i
  {
    hide Depth, Even, Print;
    if i < end {
      var t := Put(s, ", ").(turn := Turn(i, s.turn.max));
      PutEven(s, ", ");
      DepthOfText(Put(s, ", "), t);
      PrintBalanced(pattern, t);
      OthersBalanced(pattern, i + 1, end, Print(pattern, t, false));
    }
  }

  /** The right half closes exactly those, through collapsed references. */
  lemma {:induction false} RightBalanced(n: Node, s: Stream)
    requires Ok(n) && Depth(s) >= Opens(n, s.turn)
    ensures Depth(Right(n, s, false)) == Depth(s) - Opens(n, s.turn)
    decreases Size(n), 0
  {
    hide Depth, Even, Paren, Has, Closed, Left, Collapse;
    match n
    case Qual(child, _) => RightBalanced(child, s);
    case Pointer(pointee) =>
      if !IsObjCObject(pointee) { CloseThen(pointee, s); }
    case Reference(referent, rvalue) =>
      OkCollapse(rvalue, referent, s.turn);
      var (_, target, t) := Collapse(rvalue, referent, s.turn);
      var from := s.(turn := t);
      CollapseLater(rvalue, referent, s.turn);
      OpensLater(target, s.turn, t);
      DepthOfText(s, from);
      CloseThen(target, from);
    case MemberPointer(_, memberType) => CloseThen(memberType, s);
    case Sided(_, _, _, _, _, _, _) => SidedRight(n, s);
    case Pack(data) =>
      var t := Met(data, s.turn);
      MetPlace(data, s.turn);
      DepthOfText(s, s.(turn := t));
      if t.index < Count(data) {
        OkAt(data, t.index);
        OpensSamePlace(At(data, t.index), s.turn, t);
        RightBalanced(At(data, t.index), s.(turn := t));
      }
    case Forward(ref) => RightBalanced(ref, s);
    case _ =>
  }

  /** The closing parenthesis of a group, and the right half behind it. */
  lemma {:induction false} CloseThen(n: Node, s: Stream)
    requires Ok(n) && Depth(s) >= Opens(n, s.turn) + Paren(n, s.turn)
    ensures Depth(Right(n, Closed(n, s), false)) == Depth(s) - Opens(n, s.turn) - Paren(n, s.turn)
    decreases Size(n), 1
  {
    hide Depth, Paren, Closed, Right, Opens, Ok;
    ClosedDepth(n, s);
    ClosedLater(n, s);
    OpensLater(n, s.turn, Closed(n, s).turn);
    RightBalanced(n, Closed(n, s));
  }

  lemma {:induction false} SidedRight(n: Node, s: Stream)
    requires Ok(n) && Depth(s) >= Opens(n, s.turn) && n.Sided?
    ensures Depth(Right(n, s, false)) == Depth(s) - Opens(n, s.turn)
    decreases Size(n), 0, 0
  {
    hide Depth, Even, Paren, Has, Left, Write, ScanParts;
    WriteBalanced(n.right, s, 0);
    var r := Write(n.right, s, false);
    if n.spine.Just? {
      var spine := n.spine.node;
      WriteLater(n.right, s, false);
      OpensLater(spine, s.turn, r.turn);
      RightBalanced(spine, r);
      WriteBalanced(n.tail, Right(spine, r, false), 0);
    } else {
      WriteBalanced(n.tail, r, 0);
    }
  }

  lemma {:induction false} WriteBalanced(ps: Parts, s: Stream, d: nat)
    requires OkParts(ps) && Depth(s) >= d && ScanParts(d, ps) >= 0
    ensures Depth(Write(ps, s, false)) == Depth(s) - d + ScanParts(d, ps)
    decreases SizeParts(ps), 0
  {
    hide Depth, Even, Scan, Print, WithComma;
    match ps
    case Done =>
    case Text(text, more) =>
      PutDepth(s, text);
      ScanHigher(d, Depth(s) - d, text);
      WriteBalanced(more, Put(s, text), Scan(d, text));
    case Whole(node, more) =>
      PrintBalanced(node, s);
      WriteBalanced(more, Print(node, s, false), d);
    case Listed(nodes, more) =>
      WithCommaBalanced(nodes, true, s);
      WriteBalanced(more, WithComma(nodes, true, s, false), d);
    case GapUnless(last, more) =>
      PutEven(s, " ");
      WriteBalanced(more, if Last(s) != last then Put(s, " ") else s, d);
    case GapIf(last, more) =>
      PutEven(s, " ");
      WriteBalanced(more, if Last(s) == last then Put(s, " ") else s, d);
  }

  lemma {:induction false} WithCommaBalanced(ns: Nodes, first: bool, s: Stream)
    requires OkNodes(ns) && Depth(s) >= 0
    ensures Depth(WithComma(ns, first, s, false)) == Depth(s)
    decreases SizeNodes(ns), 0
  {
    hide Depth, Even, Print, Extends;
    if ns.Cons? {
      var comma := if first then s else Put(s, ", ");
      PutEven(s, ", ");
      PutExtends(s, "");
      assert Put(s, "").text == s.text;
      PutExtends(s, ", ");
      PrintBalanced(ns.head, comma);
      PrintExtends(ns.head, comma, false);
      var r := Print(ns.head, comma, false);
      if |r.text| == |comma.text| {
        Chain(s.text, comma.text, r.text);
        RewindExtends(s, r);
        DepthOfText(s, Rewound(r, |s.text|));
        WithCommaBalanced(ns.rest, first, Rewound(r, |s.text|));
      } else {
        WithCommaBalanced(ns.rest, false, r);
      }
    }
  }

  // ---------------------------------------------------------------- which trees these are

  lemma {:induction false} TextOk(d: nat, text: string, more: Parts)
    requires OkParts(more)
    ensures OkParts(Text(text, more)) && ScanParts(d, Text(text, more)) == ScanParts(Scan(d, text), more)
  {
  }

  lemma {:induction false} DoneOk(d: nat)
    ensures OkParts(Done) && ScanParts(d, Done) == d
  {
  }

  /** An array of something printed with balanced parentheses is again such a type. */
  lemma {:induction false} ArrayTypeOk(base: Node, dimension: Node)
    requires Ok(base) && Ok(dimension)
    ensures Ok(ArrayType(base, dimension))
  {
    hide Scan;
    ScanPlain(0, "[");
    ScanPlain(0, "]");
    DoneOk(0);
    var close := Text("]", Done);
    TextOk(0, "]", Done);
    var inner := Whole(dimension, close);
    assert OkParts(inner) && ScanParts(0, inner) == 0;
    TextOk(0, "[", inner);
    var right := GapUnless(']', Text("[", inner));
    assert OkParts(right) && ScanParts(0, right) == 0;
  }

  lemma {:induction false} CallPartsOk(params: Nodes)
    requires OkNodes(params)
    ensures var call := Text("(", Listed(params, Text(")", Done))); OkParts(call) && ScanParts(0, call) == 0
  {
    hide Scan;
    ScanOne(0);
    ScanOne(1);
    DoneOk(0);
    TextOk(1, ")", Done);
    var inner := Listed(params, Text(")", Done));
    assert OkParts(inner) && ScanParts(1, inner) == 0;
    TextOk(0, "(", inner);
  }

  lemma {:induction false} SuffixOk(quals: Quals, ref: RefQual, more: Parts)
    requires OkParts(more) && ScanParts(0, more) == 0
    ensures var suffix := Text(QualText(quals), Text(RefText(ref), more)); OkParts(suffix) && ScanParts(0, suffix) == 0
  {
    hide Scan, QualText;
    QualTextPlain(quals);
    ScanPlain(0, QualText(quals));
    ScanPlain(0, RefText(ref));
    TextOk(0, RefText(ref), more);
    TextOk(0, QualText(quals), Text(RefText(ref), more));
  }

  lemma {:induction false} FunctionTypeOk(ret: Node, params: Nodes, quals: Quals, ref: RefQual, spec: Parts)
    requires Ok(ret) && OkNodes(params) && OkParts(spec) && ScanParts(0, spec) == 0
    ensures Ok(FunctionType(ret, params, quals, ref, spec))
  {
    hide Scan, QualText, RefText;
    CallPartsOk(params);
    SuffixOk(quals, ref, spec);
    ScanOne(0);
    DoneOk(0);
    TextOk(0, " ", Done);
    var f := FunctionType(ret, params, quals, ref, spec);
    hide ScanParts, OkParts;
    assert f.left == Text(" ", Done) && f.right == Text("(", Listed(params, Text(")", Done)));
  }

  /** Declarations, encodings and the kinds that only write. */
  lemma {:induction false} EncodingOk(ret: Maybe, name: Node, params: Nodes, attrs: Parts, quals: Quals, ref: RefQual)
    requires (ret.Just? ==> Ok(ret.node)) && Ok(name) && OkNodes(params) && OkParts(attrs) && ScanParts(0, attrs) == 0
    ensures Ok(FunctionEncoding(ret, name, params, attrs, quals, ref))
  {
    hide Scan, QualText, RefText;
    CallPartsOk(params);
    SuffixOk(quals, ref, attrs);
    WholeOk(0, name, Done);
    DoneOk(0);
    var f := FunctionEncoding(ret, name, params, attrs, quals, ref);
    hide ScanParts, OkParts;
    assert f.left == Whole(name, Done) && f.right == Text("(", Listed(params, Text(")", Done)));
  }

  lemma {:induction false} WholeOk(d: nat, n: Node, more: Parts)
    requires Ok(n) && OkParts(more)
    ensures OkParts(Whole(n, more)) && ScanParts(d, Whole(n, more)) == ScanParts(d, more)
  {
  }

  lemma {:induction false} ListedOk(d: nat, ns: Nodes, more: Parts)
    requires OkNodes(ns) && OkParts(more)
    ensures OkParts(Listed(ns, more)) && ScanParts(d, Listed(ns, more)) == ScanParts(d, more)
  {
  }

  lemma {:induction false} DeclarationsOk(name: Node, ty: Node)
    requires Ok(name) && Ok(ty)
    ensures Ok(TypeTemplateParamDecl(name)) && Ok(NonTypeTemplateParamDecl(name, ty)) && Ok(TemplateParamPackDecl(ty))
  {
    hide Scan;
    DoneOk(0);
    WholeOk(0, name, Done);
    ScanPlain(0, "typename ");
    TextOk(0, "typename ", Done);
    ScanPlain(0, "...");
    TextOk(0, "...", Done);
    hide ScanParts, OkParts;
    assert TypeTemplateParamDecl(name).left == Text("typename ", Done);
    assert TemplateParamPackDecl(ty).left == Text("...", Done);
  }

  lemma {:induction false} TemplateDeclarationOk(name: Node, params: Nodes)
    requires Ok(name) && OkNodes(params)
    ensures Ok(TemplateTemplateParamDecl(name, params))
  {
    hide Scan;
    DoneOk(0);
    WholeOk(0, name, Done);
    ScanPlain(0, "> typename ");
    TextOk(0, "> typename ", Done);
    var listed := Listed(params, Text("> typename ", Done));
    ListedOk(0, params, Text("> typename ", Done));
    ScanPlain(0, "template<");
    TextOk(0, "template<", listed);
    hide ScanParts, OkParts;
    assert TemplateTemplateParamDecl(name, params).left == Text("template<", listed);
  }

  lemma {:induction false} NamesOk(qualifier: Node, name: Node, params: Nodes)
    requires Ok(qualifier) && Ok(name) && OkNodes(params)
    ensures Ok(QualifiedName(qualifier, name)) && Ok(NameWithTemplateArgs(qualifier, name))
    ensures Ok(TemplateArgumentPack(params))
  {
    hide Scan;
    DoneOk(0);
    WholeOk(0, name, Done);
    ScanPlain(0, "::");
    TextOk(0, "::", Whole(name, Done));
    WholeOk(0, qualifier, Text("::", Whole(name, Done)));
    WholeOk(0, qualifier, Whole(name, Done));
    ListedOk(0, params, Done);
    hide ScanParts, OkParts;
    assert QualifiedName(qualifier, name).parts == Whole(qualifier, Text("::", Whole(name, Done)));
    assert NameWithTemplateArgs(qualifier, name).parts == Whole(qualifier, Whole(name, Done));
    assert TemplateArgumentPack(params).parts == Listed(params, Done);
  }

  lemma {:induction false} TemplateArgsOk(params: Nodes)
    requires OkNodes(params)
    ensures Ok(TemplateArgs(params))
  {
    hide Scan;
    DoneOk(0);
    ScanPlain(0, ">");
    TextOk(0, ">", Done);
    var close := GapIf('>', Text(">", Done));
    assert OkParts(close) && ScanParts(0, close) == 0;
    ListedOk(0, params, close);
    ScanPlain(0, "<");
    TextOk(0, "<", Listed(params, close));
    hide ScanParts, OkParts;
    assert TemplateArgs(params).parts == Text("<", Listed(params, close));
  }

  lemma {:induction false} NoexceptOk(e: Node)
    requires Ok(e)
    ensures Ok(NoexceptSpec(e))
  {
    hide Scan;
    DoneOk(0);
    ScanOne(1);
    TextOk(1, ")", Done);
    WholeOk(1, e, Text(")", Done));
    NoexceptOpens();
    TextOk(0, "noexcept(", Whole(e, Text(")", Done)));
    hide ScanParts, OkParts;
    assert NoexceptSpec(e).parts == Text("noexcept(", Whole(e, Text(")", Done)));
  }

  lemma {:induction false} NoexceptOpens()
    ensures Scan(0, "noexcept(") == 1
  {
    assert "noexcept" + "(" == "noexcept(";
    ScanConcat(0, "noexcept", "(");
    ScanPlain(0, "noexcept");
    ScanOne(0);
  }

  /** A name with any number of ABI tags, as the parser's loop over them builds it. */
  function Tagged(base: Node, tags: seq<string>): Node {
    if tags == [] then base else AbiTag(Tagged(base, tags[..|tags| - 1]), tags[|tags| - 1])
  }

  lemma {:induction false} TaggedNamesOk(base: Node, tags: seq<string>)
    requires Ok(base) && Cached(Rhs, base) == No
    requires forall i :: 0 <= i < |tags| ==> Even("[abi:" + tags[i] + "]")
    ensures Ok(Tagged(base, tags)) && Cached(Rhs, Tagged(base, tags)) == No
  {
    if tags != [] { TaggedNamesOk(base, tags[..|tags| - 1]); }
  }

  // ---------------------------------------------------------------- kinds that print half a child

  /** Texts and children are in order; children may be printed by their left half only. */
  predicate OkHalves(ps: Parts) {
    match ps
    case Done => true
    case Whole(node, more) => Ok(node) && OkHalves(more)
    case LeftHalf(node, more) => Ok(node) && OkHalves(more)
    case Listed(nodes, more) => OkNodes(nodes) && OkHalves(more)
    case _ => OkHalves(ps.more)
  }

  /** What the half-printed children leave open, each in the turn it is printed in. */
  function HalvesOpen(ps: Parts, s: Stream): nat
    decreases SizeParts(ps)
  {
    match ps
    case Done => 0
    case LeftHalf(node, more) => Opens(node, s.turn) + HalvesOpen(more, Left(node, s, false))
    case Text(text, more) => HalvesOpen(more, Put(s, text))
    case Whole(node, more) => HalvesOpen(more, Print(node, s, false))
    case Listed(nodes, more) => HalvesOpen(more, WithComma(nodes, true, s, false))
    case GapUnless(last, more) => HalvesOpen(more, if Last(s) != last then Put(s, " ") else s)
    case GapIf(last, more) => HalvesOpen(more, if Last(s) == last then Put(s, " ") else s)
  }

  /**
    A node that prints children by their left halves leaves open exactly what those halves leave open: its
    parentheses balance exactly when none of them has any between its halves.
   */
  lemma {:induction false} HalvesDepth(ps: Parts, s: Stream, d: nat)
    requires OkHalves(ps) && Depth(s) >= d && ScanParts(d, ps) >= 0
    ensures Depth(Write(ps, s, false)) == Depth(s) - d + ScanParts(d, ps) + HalvesOpen(ps, s)
    decreases SizeParts(ps)
  {
    hide Depth, Even, Scan, Print, WithComma, Opens, Left;
    match ps
    case Done =>
    case Text(text, more) =>
      PutDepth(s, text);
      ScanHigher(d, Depth(s) - d, text);
      HalvesDepth(more, Put(s, text), Scan(d, text));
    case Whole(node, more) =>
      PrintBalanced(node, s);
      HalvesDepth(more, Print(node, s, false), d);
    case LeftHalf(node, more) =>
      LeftBalanced(node, s);
      HalvesDepth(more, Left(node, s, false), d);
    case Listed(nodes, more) =>
      WithCommaBalanced(nodes, true, s);
      HalvesDepth(more, WithComma(nodes, true, s, false), d);
    case GapUnless(last, more) =>
      PutEven(s, " ");
      HalvesDepth(more, if Last(s) != last then Put(s, " ") else s, d);
    case GapIf(last, more) =>
      PutEven(s, " ");
      HalvesDepth(more, if Last(s) == last then Put(s, " ") else s, d);
  }

  lemma {:induction false} WrittenBalancesExactly(ps: Parts, s: Stream)
    requires OkHalves(ps) && ScanParts(0, ps) == 0 && Depth(s) >= 0
    ensures Depth(Print(Written(ps), s, false)) == Depth(s) <==> HalvesOpen(ps, s) == 0
  {
    hide Depth, Write, HalvesOpen, ScanParts, OkHalves;
    HalvesDepth(ps, s, 0);
    assert Left(Written(ps), s, false) == Write(ps, s, false);
  }

  lemma {:induction false} TextHalves(d: nat, text: string, more: Parts, s: Stream)
    requires OkHalves(more)
    ensures OkHalves(Text(text, more)) && ScanParts(d, Text(text, more)) == ScanParts(Scan(d, text), more)
    ensures HalvesOpen(Text(text, more), s) == HalvesOpen(more, Put(s, text))
  {
  }

  lemma {:induction false} LeftHalves(d: nat, n: Node, more: Parts, s: Stream)
    requires Ok(n) && OkHalves(more)
    ensures OkHalves(LeftHalf(n, more)) && ScanParts(d, LeftHalf(n, more)) == ScanParts(d, more)
    ensures HalvesOpen(LeftHalf(n, more), s) == Opens(n, s.turn) + HalvesOpen(more, Left(n, s, false))
  {
  }

  lemma {:induction false} NoHalves(s: Stream)
    ensures OkHalves(Done) && ScanParts(0, Done) == 0 && HalvesOpen(Done, s) == 0
  {
  }

  lemma {:induction false} AngleOpens(d: nat)
    ensures Scan(d, ">(") == d + 1
  {
    ScanConcat(d, ">", "(");
    ScanPlain(d, ">");
    ScanOne(d);
    assert ">" + "(" == ">(";
  }

  /** A cast prints only the left halves of its type and operand. */
  lemma {:induction false} CastDepth(kind: string, to: Node, from: Node, s: Stream)
    requires Even(kind) && Ok(to) && Ok(from) && Depth(s) >= 0
    ensures var s1 := Left(to, Put(Put(s, kind), "<"), false);
            Depth(Print(CastExpr(kind, to, from), s, false)) == Depth(s) + Opens(to, s.turn) + Opens(from, s1.turn)
  {
    hide Scan, Depth, Ok, Opens, OkHalves, HalvesOpen, ScanParts, Left;
    var p0 := Text(")", Done);
    var p1 := LeftHalf(from, p0);
    var p2 := Text(">(", p1);
    var p3 := LeftHalf(to, p2);
    var p4 := Text("<", p3);
    var p5 := Text(kind, p4);
    var a := Put(s, kind);
    var b := Put(a, "<");
    var s1 := Left(to, b, false);
    var c := Put(s1, ">(");
    var s2 := Left(from, c, false);
    NoHalves(Put(s2, ")"));
    ScanOne(1);
    TextHalves(1, ")", Done, s2);
    LeftHalves(1, from, p0, c);
    AngleOpens(0);
    TextHalves(0, ">(", p1, s1);
    LeftHalves(0, to, p2, b);
    ScanPlain(0, "<");
    TextHalves(0, "<", p3, a);
    TextHalves(0, kind, p4, s);
    HalvesDepth(p5, s, 0);
    PrintsItsParts(p5, s);
  }

  lemma {:induction false} PrintsItsParts(ps: Parts, s: Stream)
    ensures Print(Written(ps), s, false) == Write(ps, s, false)
  {
    assert Left(Written(ps), s, false) == Write(ps, s, false);
  }

  /** A complex or imaginary type prints the left half of the type it is made from. */
  lemma {:induction false} PostfixDepth(ty: Node, postfix: string, s: Stream)
    requires Plain(postfix) && Ok(ty) && Depth(s) >= 0
    ensures Depth(Print(PostfixQualifiedType(ty, postfix), s, false)) == Depth(s) + Opens(ty, s.turn)
  {
    hide Scan, Depth, Ok, Opens, OkHalves, HalvesOpen, ScanParts, Left;
    var l := Left(ty, s, false);
    NoHalves(Put(l, postfix));
    ScanPlain(0, postfix);
    TextHalves(0, postfix, Done, l);
    LeftHalves(0, ty, Text(postfix, Done), s);
    HalvesDepth(LeftHalf(ty, Text(postfix, Done)), s, 0);
    PrintsItsParts(LeftHalf(ty, Text(postfix, Done)), s);
  }

  /** A destructor's name prints the left half of the type it destroys. */
  lemma {:induction false} DtorDepth(base: Node, s: Stream)
    requires Ok(base) && Depth(s) >= 0
    ensures Depth(Print(DtorName(base), s, false)) == Depth(s) + Opens(base, s.turn)
  {
    hide Scan, Depth, Ok, Opens, OkHalves, HalvesOpen, ScanParts, Left;
    var a := Put(s, "~");
    NoHalves(Left(base, a, false));
    LeftHalves(0, base, Done, a);
    ScanPlain(0, "~");
    TextHalves(0, "~", LeftHalf(base, Done), s);
    HalvesDepth(Text("~", LeftHalf(base, Done)), s, 0);
    PrintsItsParts(Text("~", LeftHalf(base, Done)), s);
  }

  /** A pointer to an array leaves one open, whatever the array is of. */
  lemma {:induction false} ArrayPointerOpens(base: Node, dimension: Node, t: Turn)
    ensures Opens(Pointer(ArrayType(base, dimension)), t) == Opens(base, t) + 1
  {
    var a := ArrayType(base, dimension);
    assert Opens(a, t) == Opens(base, t);
    assert Cached(Array, a) == Yes;
  }

  const Blank: Stream := Stream("", Turn(Max, Max))

  /** `static_cast<int (*>(x)`: the cast of x to a pointer to int[3] is printed with a parenthesis left open. */
  lemma {:induction false} CastToArrayPointerUnbalanced()
    ensures var to := Pointer(ArrayType(Name("int"), Name("3")));
            Depth(Blank) == 0 && Depth(Print(CastExpr("static_cast", to, Name("x")), Blank, false)) == 1
  {
    hide Print, Left, Scan, Ok, Depth, Opens, Even, ArrayType, CastExpr;
    EmptyDepth();
    PlainNameOk("int");
    PlainNameOk("3");
    var numbers := ArrayType(Name("int"), Name("3"));
    ArrayTypeOk(Name("int"), Name("3"));
    PointerOk(numbers);
    ArrayPointerOpens(Name("int"), Name("3"), Blank.turn);
    NameOpensNothing("int", Blank.turn);
    CastOfName("static_cast", Pointer(numbers), "x", Blank);
  }

  lemma {:induction false} CastOfName(kind: string, to: Node, name: string, s: Stream)
    requires Plain(kind) && Plain(name) && Ok(to) && Depth(s) >= 0
    ensures Depth(Print(CastExpr(kind, to, Name(name)), s, false)) == Depth(s) + Opens(to, s.turn)
  {
    hide Print, Scan, Ok, Depth, Opens, Left;
    ScanPlain(0, kind);
    PlainNameOk(name);
    CastDepth(kind, to, Name(name), s);
    NameOpensNothing(name, Left(to, Put(Put(s, kind), "<"), false).turn);
  }

  lemma {:induction false} NameOpensNothing(name: string, t: Turn)
    ensures Opens(Name(name), t) == 0
  {
  }

  lemma {:induction false} EmptyDepth()
    ensures Depth(Blank) == 0
  {
  }

  lemma {:induction false} PlainNameOk(name: string)
    requires Plain(name)
    ensures Ok(Name(name))
  {
    ScanPlain(0, name);
  }

  lemma {:induction false} PointerOk(n: Node)
    requires Ok(n)
    ensures Ok(Pointer(n))
  {
  }
}
