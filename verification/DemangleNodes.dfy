/**
  The demangler's syntax tree and the stream it is printed to.

  Most kinds of node only write text and whole children; they are all `Written`.  Kinds that wrap a type
  from both sides (arrays, functions, declarations) are all `Sided`.  The functions at the end build the
  nodes as the constructors of the kinds do.
 */
module DemangleNodes {

  datatype Quals = Quals(isConst: bool, isVolatile: bool, isRestrict: bool)

  datatype RefQual = RefNone | RefLValue | RefRValue

  datatype Node =
    | Name(name: string)
    | Written(parts: Parts)
    | AbiTag(base: Node, tag: string)
    | ObjCProto(ty: Node, protocol: string)
    | Qual(child: Node, quals: Quals)
    | Pointer(pointee: Node)
    | Reference(referent: Node, rvalue: bool)
    | MemberPointer(classType: Node, memberType: Node)
    | Sided(spine: Maybe, gap: bool, left: Parts, right: Parts, tail: Parts, isArray: bool, isFunction: bool)
    | Pack(data: Nodes)
    | PackExpansion(pattern: Node)
    | Forward(ref: Node)

  datatype Maybe = Nothing | Just(node: Node)

  datatype Nodes = Empty | Cons(head: Node, rest: Nodes)

  /** What a node writes: text, children whole or by their left half only, lists, and gaps that depend on the last character. */
  datatype Parts =
    | Done
    | Text(text: string, more: Parts)
    | Whole(node: Node, more: Parts)
    | LeftHalf(node: Node, more: Parts)
    | Listed(nodes: Nodes, more: Parts)
    | GapUnless(last: char, more: Parts)
    | GapIf(last: char, more: Parts)

  function Size(n: Node): nat {
    1 + match n
        case Name(_) => 0
        case Written(parts) => SizeParts(parts)
        case AbiTag(base, _) => Size(base)
        case ObjCProto(ty, _) => Size(ty)
        case Qual(child, _) => Size(child)
        case Pointer(pointee) => Size(pointee)
        case Reference(referent, _) => Size(referent)
        case MemberPointer(classType, memberType) => Size(classType) + Size(memberType)
        case Sided(spine, _, left, right, tail, _, _) =>
          (if spine.Just? then Size(spine.node) else 0) + SizeParts(left) + SizeParts(right) + SizeParts(tail)
        case Pack(data) => SizeNodes(data)
        case PackExpansion(pattern) => Size(pattern)
        case Forward(ref) => Size(ref)
  }

  function SizeNodes(ns: Nodes): nat {
    match ns
    case Empty => 0
    case Cons(head, rest) => 1 + Size(head) + SizeNodes(rest)
  }

  function SizeParts(ps: Parts): nat {
    match ps
    case Done => 0
    case Text(_, more) => 1 + SizeParts(more)
    case Whole(node, more) => 1 + Size(node) + SizeParts(more)
    case LeftHalf(node, more) => 1 + Size(node) + SizeParts(more)
    case Listed(nodes, more) => 1 + SizeNodes(nodes) + SizeParts(more)
    case GapUnless(_, more) => 1 + SizeParts(more)
    case GapIf(_, more) => 1 + SizeParts(more)
  }

  function Count(ns: Nodes): nat { if ns.Empty? then 0 else 1 + Count(ns.rest) }

  function At(ns: Nodes, i: nat): (n: Node)
    requires i < Count(ns)
    ensures Size(n) < SizeNodes(ns)
  {
    if i == 0 then ns.head else At(ns.rest, i - 1)
  }

  // ---------------------------------------------------------------- cached flags

  datatype Cache = Yes | No | Unknown

  /** The three things a node remembers about itself. */
  datatype Flag = Rhs | Array | Function

  /** The flags as the constructors set them. */
  function Cached(w: Flag, n: Node): Cache {
    match n
    case Qual(child, _) => Cached(w, child)
    case AbiTag(base, _) => Cached(w, base)
    case Pointer(pointee) => if w == Rhs then Cached(w, pointee) else No
    case Reference(referent, _) => if w == Rhs then Cached(w, referent) else No
    case MemberPointer(_, memberType) => if w == Rhs then Cached(w, memberType) else No
    case Sided(_, _, _, _, _, isArray, isFunction) =>
      (match w
       case Rhs => Yes
       case Array => if isArray then Yes else No
       case Function => if isFunction then Yes else No)
    case Pack(data) => if AllNo(w, data) then No else Unknown
    case Forward(_) => Unknown
    case _ => No
  }

  function AllNo(w: Flag, ns: Nodes): bool {
    ns.Empty? || (Cached(w, ns.head) == No && AllNo(w, ns.rest))
  }

  // ---------------------------------------------------------------- the stream

  const Max: nat := 0xFFFF_FFFF

  /** Which element of its packs is being printed, and how many there are; `Max` while no pack was met. */
  datatype Turn = Turn(index: nat, max: nat)

  datatype Stream = Stream(text: string, turn: Turn)

  function Put(s: Stream, t: string): Stream { s.(text := s.text + t) }

  function Last(s: Stream): char { if s.text == [] then '\0' else s.text[|s.text| - 1] }

  /** Move back to an earlier position. */
  function Rewound(s: Stream, position: nat): Stream {
    if position <= |s.text| then s.(text := s.text[..position]) else s
  }

  function Met(data: Nodes, t: Turn): Turn {
    if t.max == Max then Turn(0, Count(data) % (Max + 1)) else t
  }

  // ---------------------------------------------------------------- questions put to a node

  /** `hasRHSComponent`, `hasArray` and `hasFunction`: the flag, or the slow way where it is unknown. */
  function Has(w: Flag, n: Node, t: Turn): (r: (bool, Turn))
    decreases Size(n)
  {
    if Cached(w, n) != Unknown then (Cached(w, n) == Yes, t)
    else
      match n
      case Qual(child, _) => Has(w, child, t)
      case Pointer(pointee) => Has(w, pointee, t)
      case Reference(referent, _) => Has(w, referent, t)
      case MemberPointer(_, memberType) => Has(w, memberType, t)
      case Pack(data) =>
        var u := Met(data, t);
        if u.index < Count(data) then Has(w, At(data, u.index), u) else (false, u)
      case Forward(ref) => Has(w, ref, t)
      case _ => (false, t)
  }

  /** An array or a function: what needs parentheses. */
  function Grouped(n: Node, t: Turn): (bool, Turn) {
    var (a, u) := Has(Array, n, t);
    if a then (true, u) else Has(Function, n, u)
  }

  function Syntax(n: Node, t: Turn): (r: (Node, Turn))
    ensures Size(r.0) <= Size(n)
    decreases Size(n)
  {
    match n
    case Pack(data) =>
      var u := Met(data, t);
      if u.index < Count(data) then Syntax(At(data, u.index), u) else (n, u)
    case Forward(ref) => Syntax(ref, t)
    case _ => (n, t)
  }

  /** References to references are one reference, an rvalue only if all are. */
  function Collapse(rvalue: bool, n: Node, t: Turn): (r: (bool, Node, Turn))
    ensures Size(r.1) <= Size(n)
    decreases Size(n)
  {
    var (syntax, u) := Syntax(n, t);
    if syntax.Reference? then Collapse(rvalue && syntax.rvalue, syntax.referent, u) else (rvalue, n, u)
  }

  function IsObjCObject(n: Node): bool { n.ObjCProto? && n.ty == Name("objc_object") }

  // ---------------------------------------------------------------- the kinds of node

  function QualText(q: Quals): string {
    (if q.isConst then " const" else "") + (if q.isVolatile then " volatile" else "")
    + (if q.isRestrict then " restrict" else "")
  }

  function RefText(r: RefQual): string {
    match r
    case RefNone => ""
    case RefLValue => " &"
    case RefRValue => " &&"
  }

  /** `dimension` writes what stands between the brackets. */
  function ArrayType(base: Node, dimension: Node): Node {
    Sided(Just(base), false, Done, GapUnless(']', Text("[", Whole(dimension, Text("]", Done)))), Done, true, false)
  }

  /** `spec` is empty or an exception specification behind a space. */
  function FunctionType(ret: Node, params: Nodes, quals: Quals, ref: RefQual, spec: Parts): Node {
    Sided(Just(ret), false, Text(" ", Done), Text("(", Listed(params, Text(")", Done))),
          Text(QualText(quals), Text(RefText(ref), spec)), false, true)
  }

  function FunctionEncoding(ret: Maybe, name: Node, params: Nodes, attrs: Parts, quals: Quals, ref: RefQual): Node {
    Sided(ret, true, Whole(name, Done), Text("(", Listed(params, Text(")", Done))),
          Text(QualText(quals), Text(RefText(ref), attrs)), false, true)
  }

  function TypeTemplateParamDecl(name: Node): Node {
    Sided(Nothing, false, Text("typename ", Done), Whole(name, Done), Done, false, false)
  }

  function NonTypeTemplateParamDecl(name: Node, ty: Node): Node {
    Sided(Just(ty), true, Done, Whole(name, Done), Done, false, false)
  }

  function TemplateTemplateParamDecl(name: Node, params: Nodes): Node {
    Sided(Nothing, false, Text("template<", Listed(params, Text("> typename ", Done))), Whole(name, Done), Done, false, false)
  }

  function TemplateParamPackDecl(param: Node): Node {
    Sided(Just(param), false, Text("...", Done), Done, Done, false, false)
  }

  function QualifiedName(qualifier: Node, name: Node): Node {
    Written(Whole(qualifier, Text("::", Whole(name, Done))))
  }

  function TemplateArgs(params: Nodes): Node {
    Written(Text("<", Listed(params, GapIf('>', Text(">", Done)))))
  }

  function NameWithTemplateArgs(name: Node, args: Node): Node { Written(Whole(name, Whole(args, Done))) }

  function TemplateArgumentPack(elements: Nodes): Node { Written(Listed(elements, Done)) }

  function NoexceptSpec(e: Node): Node { Written(Text("noexcept(", Whole(e, Text(")", Done)))) }

  function PostfixQualifiedType(ty: Node, postfix: string): Node { Written(LeftHalf(ty, Text(postfix, Done))) }

  function DtorName(base: Node): Node { Written(Text("~", LeftHalf(base, Done))) }

  function CastExpr(kind: string, to: Node, from: Node): Node {
    Written(Text(kind, Text("<", LeftHalf(to, Text(">(", LeftHalf(from, Text(")", Done)))))))
  }
}
