/**
  Printing a syntax tree.  A type is printed in two halves around what it wraps; `print` leaves out the
  right half of a node whose cached flag says that it has none.
 */
module DemanglePrint {
  import opened DemangleNodes

  /** With `full`, the right half is always printed: the plain form that the cached flag shortens. */
  function Print(n: Node, s: Stream, full: bool): Stream
    decreases Size(n), 1
  {
    var l := Left(n, s, full);
    if full || Cached(Rhs, n) != No then Right(n, l, full) else l
  }

  function Left(n: Node, s: Stream, full: bool): Stream
    decreases Size(n), 0
  {
    match n
    case Name(name) => Put(s, name)
    case Written(parts) => Write(parts, s, full)
    case AbiTag(base, tag) => Put(Left(base, s, full), "[abi:" + tag + "]")
    case ObjCProto(ty, protocol) => Put(Print(ty, s, full), "<" + protocol + ">")
    case Qual(child, quals) => Put(Left(child, s, full), QualText(quals))
    case Pointer(pointee) =>
      if IsObjCObject(pointee) then Put(s, "id<" + pointee.protocol + ">")
      else Put(Opened(pointee, Left(pointee, s, full), true), "*")
    case Reference(referent, rvalue) =>
      var (kind, target, t) := Collapse(rvalue, referent, s.turn);
      Put(Opened(target, Left(target, s.(turn := t), full), true), if kind then "&&" else "&")
    case MemberPointer(classType, memberType) =>
      Put(Print(classType, Opened(memberType, Left(memberType, s, full), false), full), "::*")
    case Sided(spine, gap, left, _, _, _, _) =>
      Write(left, if spine.Just? then Spaced(spine.node, gap, Left(spine.node, s, full)) else s, full)
    case Pack(data) =>
      var t := Met(data, s.turn);
      if t.index < Count(data) then Left(At(data, t.index), s.(turn := t), full) else s.(turn := t)
    case PackExpansion(pattern) =>
      var first := Print(pattern, Stream(s.text, Turn(Max, Max)), full);
      (if first.turn.max == Max then Put(first, "...")
       else if first.turn.max == 0 then Rewound(first, |s.text|)
       else PrintOthers(pattern, 1, first.turn.max, first, full)).(turn := s.turn)
    case Forward(ref) => Left(ref, s, full)
  }

  function Right(n: Node, s: Stream, full: bool): Stream
    decreases Size(n), 0
  {
    match n
    case Qual(child, _) => Right(child, s, full)
    case Pointer(pointee) =>
      if IsObjCObject(pointee) then s else Right(pointee, Closed(pointee, s), full)
    case Reference(referent, rvalue) =>
      var (_, target, t) := Collapse(rvalue, referent, s.turn);
      Right(target, Closed(target, s.(turn := t)), full)
    case MemberPointer(_, memberType) => Right(memberType, Closed(memberType, s), full)
    case Sided(spine, _, _, right, tail, _, _) =>
      var r := Write(right, s, full);
      Write(tail, if spine.Just? then Right(spine.node, r, full) else r, full)
    case Pack(data) =>
      var t := Met(data, s.turn);
      if t.index < Count(data) then Right(At(data, t.index), s.(turn := t), full) else s.(turn := t)
    case Forward(ref) => Right(ref, s, full)
    case _ => s
  }

  /** The opening parenthesis of a pointer or reference to an array or function. */
  function Opened(n: Node, s: Stream, spaced: bool): Stream {
    var (a, t) := Has(Array, n, s.turn);
    var (g, u) := Grouped(n, if spaced then t else s.turn);
    if spaced then Put(Stream(s.text, u), (if a then " " else "") + (if g then "(" else ""))
    else Put(Stream(s.text, u), if g then "(" else " ")
  }

  function Closed(n: Node, s: Stream): Stream {
    var (g, t) := Grouped(n, s.turn);
    Put(Stream(s.text, t), if g then ")" else "")
  }

  /** A space behind a left half, unless its right half follows later. */
  function Spaced(n: Node, gap: bool, s: Stream): Stream {
    if !gap then s
    else
      var (h, t) := Has(Rhs, n, s.turn);
      Put(Stream(s.text, t), if h then "" else " ")
  }

  function PrintOthers(pattern: Node, i: nat, end: nat, s: Stream, full: bool): Stream
    decreases Size(pattern), 2, end - i
  {
    if i < end then
      PrintOthers(pattern, i + 1, end, Print(pattern, Put(s, ", ").(turn := Turn(i, s.turn.max)), full), full)
    else s
  }

  function Write(ps: Parts, s: Stream, full: bool): Stream
    decreases SizeParts(ps), 0
  {
    match ps
    case Done => s
    case Text(text, more) => Write(more, Put(s, text), full)
    case Whole(node, more) => Write(more, Print(node, s, full), full)
    case LeftHalf(node, more) => Write(more, Left(node, s, full), full)
    case Listed(nodes, more) => Write(more, WithComma(nodes, true, s, full), full)
    case GapUnless(last, more) => Write(more, if Last(s) != last then Put(s, " ") else s, full)
    case GapIf(last, more) => Write(more, if Last(s) == last then Put(s, " ") else s, full)
  }

  /** A list; the comma before an element that prints nothing is taken back. */
  function WithComma(ns: Nodes, first: bool, s: Stream, full: bool): Stream
    decreases SizeNodes(ns), 0
  {
    if ns.Empty? then s
    else
      var comma := if first then s else Put(s, ", ");
      var r := Print(ns.head, comma, full);
      if |r.text| == |comma.text| then WithComma(ns.rest, first, Rewound(r, |s.text|), full)
      else WithComma(ns.rest, false, r, full)
  }
}
