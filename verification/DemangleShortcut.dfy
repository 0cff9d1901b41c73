/**
  Leaving out the right half of nodes whose flag says they have none changes nothing.
 */
module DemangleShortcut {
  import opened DemangleNodes
  import opened DemanglePrint

  // ---------------------------------------------------------------- what the flags promise

  /** A node without a right half is neither an array nor a function. */
  lemma {:induction false} NoRightNoGroup(n: Node)
    requires Cached(Rhs, n) == No
    ensures Cached(Array, n) == No && Cached(Function, n) == No
  {
    match n
    case Qual(child, _) => NoRightNoGroup(child);
    case AbiTag(base, _) => NoRightNoGroup(base);
    case Pack(data) => NoRightNoGroups(data);
    case _ =>
  }

  lemma {:induction false} NoRightNoGroups(ns: Nodes)
    requires AllNo(Rhs, ns)
    ensures AllNo(Array, ns) && AllNo(Function, ns)
  {
    if ns.Cons? {
      NoRightNoGroup(ns.head);
      NoRightNoGroups(ns.rest);
    }
  }

  lemma {:induction false} NoneOf(w: Flag, ns: Nodes, i: nat)
    requires AllNo(w, ns) && i < Count(ns)
    ensures Cached(w, At(ns, i)) == No
  {
    if i > 0 { NoneOf(w, ns.rest, i - 1); }
  }

  // ---------------------------------------------------------------- packs met on the way

  predicate Settled(t: Turn) { t.max != Max }

  /** Walking to the core of `n` decides nothing: every pack on the way finds the turn as it would set it. */
  predicate Idle(n: Node, t: Turn)
    decreases Size(n)
  {
    Settled(t) ||
    match n
    case Qual(child, _) => Idle(child, t)
    case Pointer(pointee) => IsObjCObject(pointee) || Idle(pointee, t)
    case Reference(referent, _) => Idle(referent, t)
    case MemberPointer(_, memberType) => Idle(memberType, t)
    case Sided(spine, _, _, _, _, _, _) => spine.Just? ==> Idle(spine.node, t)
    case Pack(data) => Met(data, t) == t && (t.index < Count(data) ==> Idle(At(data, t.index), t))
    case Forward(ref) => Idle(ref, t)
    case _ => true
  }

  /** What printing may make of a turn: nothing, or the first place of a pack where none was being expanded. */
  predicate Later(t: Turn, u: Turn) { u == t || (!Settled(t) && u.index == 0) }

  lemma {:induction false} LaterChain(t: Turn, u: Turn, v: Turn)
    requires Later(t, u) && Later(u, v)
    ensures Later(t, v)
  {
  }

  lemma {:induction false} IdleLater(n: Node, t: Turn, u: Turn)
    requires Idle(n, t) && Later(t, u)
    ensures Idle(n, u)
    decreases Size(n)
  {
    if !Settled(u) && u != t {
      match n
      case Qual(child, _) => IdleLater(child, t, u);
      case Pointer(pointee) => if !IsObjCObject(pointee) { IdleLater(pointee, t, u); }
      case Reference(referent, _) => IdleLater(referent, t, u);
      case MemberPointer(_, memberType) => IdleLater(memberType, t, u);
      case Sided(spine, _, _, _, _, _, _) => if spine.Just? { IdleLater(spine.node, t, u); }
      case Forward(ref) => IdleLater(ref, t, u);
      case _ =>
    }
  }

  /** Questions to an idle node leave the turn alone. */
  lemma {:induction false} HasKeeps(w: Flag, n: Node, t: Turn)
    requires Idle(n, t) || Cached(w, n) != Unknown
    ensures Has(w, n, t).1 == t
    decreases Size(n)
  {
    if Cached(w, n) == Unknown {
      match n
      case Qual(child, _) => HasKeeps(w, child, t);
      case Pointer(pointee) => HasKeeps(w, pointee, t);
      case Reference(referent, _) => HasKeeps(w, referent, t);
      case MemberPointer(_, memberType) => HasKeeps(w, memberType, t);
      case Pack(data) =>
        if t.index < Count(data) { HasKeeps(w, At(data, t.index), t); }
      case Forward(ref) => HasKeeps(w, ref, t);
      case _ =>
    }
  }

  lemma {:induction false} SyntaxKeeps(n: Node, t: Turn)
    requires Idle(n, t)
    ensures Syntax(n, t).1 == t && Idle(Syntax(n, t).0, t)
    decreases Size(n)
  {
    match n
    case Pack(data) =>
      if t.index < Count(data) { SyntaxKeeps(At(data, t.index), t); }
    case Forward(ref) => SyntaxKeeps(ref, t);
    case _ =>
  }

  lemma {:induction false} CollapseKeeps(rvalue: bool, n: Node, t: Turn)
    requires Idle(n, t)
    ensures Collapse(rvalue, n, t).2 == t && Idle(Collapse(rvalue, n, t).1, t)
    decreases Size(n)
  {
    SyntaxKeeps(n, t);
    var (syntax, u) := Syntax(n, t);
    if syntax.Reference? { CollapseKeeps(rvalue && syntax.rvalue, syntax.referent, u); }
  }

  lemma {:induction false} SyntaxWithoutRight(n: Node, t: Turn)
    requires Cached(Rhs, n) == No
    ensures Cached(Rhs, Syntax(n, t).0) == No
    decreases Size(n)
  {
    match n
    case Pack(data) =>
      var u := Met(data, t);
      if u.index < Count(data) {
        NoneOf(Rhs, data, u.index);
        SyntaxWithoutRight(At(data, u.index), u);
      }
    case _ =>
  }

  lemma {:induction false} CollapseWithoutRight(rvalue: bool, n: Node, t: Turn)
    requires Cached(Rhs, n) == No
    ensures Cached(Rhs, Collapse(rvalue, n, t).1) == No
    decreases Size(n)
  {
    SyntaxWithoutRight(n, t);
    var (syntax, u) := Syntax(n, t);
    if syntax.Reference? { CollapseWithoutRight(rvalue && syntax.rvalue, syntax.referent, u); }
  }

  lemma {:induction false} ClosedQuietly(n: Node, s: Stream)
    requires Cached(Rhs, n) == No
    ensures Closed(n, s) == s
  {
    NoRightNoGroup(n);
  }

  /** The right half of a node without one. */
  lemma {:induction false} QuietRight(n: Node, s: Stream, full: bool)
    requires Cached(Rhs, n) == No && Idle(n, s.turn)
    ensures Right(n, s, full) == s
    decreases Size(n)
  {
    match n
    case Qual(child, _) => QuietRight(child, s, full);
    case Pointer(pointee) =>
      if !IsObjCObject(pointee) {
        ClosedQuietly(pointee, s);
        QuietRight(pointee, s, full);
      }
    case Reference(referent, rvalue) =>
      CollapseKeeps(rvalue, referent, s.turn);
      CollapseWithoutRight(rvalue, referent, s.turn);
      var (_, target, t) := Collapse(rvalue, referent, s.turn);
      ClosedQuietly(target, s);
      QuietRight(target, s, full);
    case MemberPointer(_, memberType) =>
      ClosedQuietly(memberType, s);
      QuietRight(memberType, s, full);
    case Pack(data) =>
      if s.turn.index < Count(data) {
        NoneOf(Rhs, data, s.turn.index);
        QuietRight(At(data, s.turn.index), s, full);
      }
    case _ =>
  }

  // ---------------------------------------------------------------- a turn, once decided, stays

  lemma {:induction false} HasLater(w: Flag, n: Node, t: Turn)
    ensures Later(t, Has(w, n, t).1)
    decreases Size(n)
  {
    if Cached(w, n) == Unknown {
      match n
      case Qual(child, _) => HasLater(w, child, t);
      case Pointer(pointee) => HasLater(w, pointee, t);
      case Reference(referent, _) => HasLater(w, referent, t);
      case MemberPointer(_, memberType) => HasLater(w, memberType, t);
      case Pack(data) =>
        var u := Met(data, t);
        if u.index < Count(data) { HasLater(w, At(data, u.index), u); }
      case Forward(ref) => HasLater(w, ref, t);
      case _ =>
    }
  }

  lemma {:induction false} GroupedLater(n: Node, t: Turn)
    ensures Later(t, Grouped(n, t).1)
  {
    hide Has;
    HasLater(Array, n, t);
    HasLater(Function, n, Has(Array, n, t).1);
  }

  lemma {:induction false} SyntaxLater(n: Node, t: Turn)
    ensures Later(t, Syntax(n, t).1)
    decreases Size(n)
  {
    match n
    case Pack(data) =>
      var u := Met(data, t);
      if u.index < Count(data) { SyntaxLater(At(data, u.index), u); }
    case Forward(ref) => SyntaxLater(ref, t);
    case _ =>
  }

  lemma {:induction false} CollapseLater(rvalue: bool, n: Node, t: Turn)
    ensures Later(t, Collapse(rvalue, n, t).2)
    decreases Size(n)
  {
    SyntaxLater(n, t);
    var (syntax, u) := Syntax(n, t);
    if syntax.Reference? { CollapseLater(rvalue && syntax.rvalue, syntax.referent, u); }
  }

  lemma {:induction false} OpenedLater(n: Node, s: Stream, spaced: bool)
    ensures Later(s.turn, Opened(n, s, spaced).turn)
  {
    hide Has, Grouped;
    HasLater(Array, n, s.turn);
    GroupedLater(n, s.turn);
    GroupedLater(n, Has(Array, n, s.turn).1);
  }

  lemma {:induction false} ClosedLater(n: Node, s: Stream)
    ensures Later(s.turn, Closed(n, s).turn)
  {
    hide Has, Grouped;
    GroupedLater(n, s.turn);
  }

  lemma {:induction false} SpacedLater(n: Node, gap: bool, s: Stream)
    ensures Later(s.turn, Spaced(n, gap, s).turn)
  {
    hide Has;
    HasLater(Rhs, n, s.turn);
  }

  /** Whatever is printed, an expansion that has been set up is left alone, and one that was not is set up at its first place. */
  lemma {:induction false} PrintLater(n: Node, s: Stream, full: bool)
    ensures Later(s.turn, Print(n, s, full).turn)
    decreases Size(n), 1
  {
    hide Left, Right;
    LeftLater(n, s, full);
    RightLater(n, Left(n, s, full), full);
  }

  lemma {:induction false} LeftLater(n: Node, s: Stream, full: bool)
    ensures Later(s.turn, Left(n, s, full).turn)
    decreases Size(n), 0
  {
    hide Has, Grouped, Collapse, Opened, Spaced, Right, Print, Write;
    match n
    case Name(_) =>
    case Written(parts) => WriteLater(parts, s, full);
    case AbiTag(base, _) => LeftLater(base, s, full);
    case ObjCProto(ty, _) => PrintLater(ty, s, full);
    case Qual(child, _) => LeftLater(child, s, full);
    case Pointer(pointee) =>
      LeftLater(pointee, s, full);
      OpenedLater(pointee, Left(pointee, s, full), true);
    case Reference(referent, rvalue) =>
      CollapseLater(rvalue, referent, s.turn);
      var (_, target, t) := Collapse(rvalue, referent, s.turn);
      LeftLater(target, s.(turn := t), full);
      OpenedLater(target, Left(target, s.(turn := t), full), true);
    case MemberPointer(classType, memberType) =>
      LeftLater(memberType, s, full);
      OpenedLater(memberType, Left(memberType, s, full), false);
      PrintLater(classType, Opened(memberType, Left(memberType, s, full), false), full);
    case Sided(spine, gap, left, _, _, _, _) =>
      if spine.Just? {
        LeftLater(spine.node, s, full);
        SpacedLater(spine.node, gap, Left(spine.node, s, full));
        WriteLater(left, Spaced(spine.node, gap, Left(spine.node, s, full)), full);
      } else {
        WriteLater(left, s, full);
      }
    case Pack(data) =>
      var t := Met(data, s.turn);
      if t.index < Count(data) { LeftLater(At(data, t.index), s.(turn := t), full); }
    case PackExpansion(_) =>
    case Forward(ref) => LeftLater(ref, s, full);
  }

  lemma {:induction false} RightLater(n: Node, s: Stream, full: bool)
    ensures Later(s.turn, Right(n, s, full).turn)
    decreases Size(n), 0
  {
    hide Has, Grouped, Collapse, Closed, Left, Print, Write;
    match n
    case Qual(child, _) => RightLater(child, s, full);
    case Pointer(pointee) =>
      ClosedLater(pointee, s);
      RightLater(pointee, Closed(pointee, s), full);
    case Reference(referent, rvalue) =>
      CollapseLater(rvalue, referent, s.turn);
      var (_, target, t) := Collapse(rvalue, referent, s.turn);
      ClosedLater(target, s.(turn := t));
      RightLater(target, Closed(target, s.(turn := t)), full);
    case MemberPointer(_, memberType) =>
      ClosedLater(memberType, s);
      RightLater(memberType, Closed(memberType, s), full);
    case Sided(spine, _, _, right, tail, _, _) =>
      WriteLater(right, s, full);
      var r := Write(right, s, full);
      if spine.Just? {
        RightLater(spine.node, r, full);
        WriteLater(tail, Right(spine.node, r, full), full);
      } else {
        WriteLater(tail, r, full);
      }
    case Pack(data) =>
      var t := Met(data, s.turn);
      if t.index < Count(data) { RightLater(At(data, t.index), s.(turn := t), full); }
    case Forward(ref) => RightLater(ref, s, full);
    case _ =>
  }

  lemma {:induction false} WriteLater(ps: Parts, s: Stream, full: bool)
    ensures Later(s.turn, Write(ps, s, full).turn)
    decreases SizeParts(ps), 0
  {
    hide Print, Left, WithComma;
    match ps
    case Done =>
    case Text(text, more) => WriteLater(more, Put(s, text), full);
    case Whole(node, more) =>
      PrintLater(node, s, full);
      WriteLater(more, Print(node, s, full), full);
    case LeftHalf(node, more) =>
      LeftLater(node, s, full);
      WriteLater(more, Left(node, s, full), full);
    case Listed(nodes, more) =>
      WithCommaLater(nodes, true, s, full);
      WriteLater(more, WithComma(nodes, true, s, full), full);
    case GapUnless(last, more) => WriteLater(more, if Last(s) != last then Put(s, " ") else s, full);
    case GapIf(last, more) => WriteLater(more, if Last(s) == last then Put(s, " ") else s, full);
  }

  lemma {:induction false} WithCommaLater(ns: Nodes, first: bool, s: Stream, full: bool)
    ensures Later(s.turn, WithComma(ns, first, s, full).turn)
    decreases SizeNodes(ns), 0
  {
    hide Print;
    if ns.Cons? {
      var comma := if first then s else Put(s, ", ");
      PrintLater(ns.head, comma, full);
      var r := Print(ns.head, comma, full);
      if |r.text| == |comma.text| {
        WithCommaLater(ns.rest, first, Rewound(r, |s.text|), full);
      } else {
        WithCommaLater(ns.rest, false, r, full);
      }
    }
  }

  // ---------------------------------------------------------------- the left half decides the turn

  /** In the turn that looking behind packs decided on, or a later one, the node is idle if what was found is. */
  lemma {:induction false} SyntaxIdle(n: Node, t: Turn, u: Turn)
    requires Later(Syntax(n, t).1, u) && Idle(Syntax(n, t).0, u)
    ensures Idle(n, u)
    decreases Size(n)
  {
    match n
    case Pack(data) =>
      var v := Met(data, t);
      if v.index < Count(data) {
        SyntaxLater(At(data, v.index), v);
        SyntaxIdle(At(data, v.index), v, u);
      }
    case Forward(ref) => SyntaxIdle(ref, t, u);
    case _ =>
  }

  lemma {:induction false} CollapseIdle(rvalue: bool, n: Node, t: Turn, u: Turn)
    requires Later(Collapse(rvalue, n, t).2, u) && Idle(Collapse(rvalue, n, t).1, u)
    ensures Idle(n, u)
    decreases Size(n)
  {
    var (syntax, v) := Syntax(n, t);
    if syntax.Reference? {
      CollapseLater(rvalue && syntax.rvalue, syntax.referent, v);
      CollapseIdle(rvalue && syntax.rvalue, syntax.referent, v, u);
      SyntaxIdle(n, t, u);
    }
  }

  /** A left half leaves nothing for the right half to decide. */
  lemma {:induction false} LeftDecides(n: Node, s: Stream, full: bool)
    ensures Idle(n, Left(n, s, full).turn)
    decreases Size(n)
  {
    hide Has, Grouped, Collapse, Print, Write, Right;
    match n
    case Qual(child, _) => LeftDecides(child, s, full);
    case Pointer(pointee) =>
      if !IsObjCObject(pointee) {
        LeftDecides(pointee, s, full);
        OpenedLater(pointee, Left(pointee, s, full), true);
        IdleLater(pointee, Left(pointee, s, full).turn, Opened(pointee, Left(pointee, s, full), true).turn);
      }
    case Reference(referent, rvalue) =>
      var (_, target, t) := Collapse(rvalue, referent, s.turn);
      var l := Left(target, s.(turn := t), full);
      LeftDecides(target, s.(turn := t), full);
      LeftLater(target, s.(turn := t), full);
      CollapseIdle(rvalue, referent, s.turn, l.turn);
      OpenedLater(target, l, true);
      IdleLater(referent, l.turn, Opened(target, l, true).turn);
    case MemberPointer(classType, memberType) =>
      var l := Left(memberType, s, full);
      var o := Opened(memberType, l, false);
      LeftDecides(memberType, s, full);
      OpenedLater(memberType, l, false);
      PrintLater(classType, o, full);
      LaterChain(l.turn, o.turn, Print(classType, o, full).turn);
      IdleLater(memberType, l.turn, Print(classType, o, full).turn);
    case Sided(spine, gap, left, _, _, _, _) =>
      if spine.Just? {
        var l := Left(spine.node, s, full);
        var o := Spaced(spine.node, gap, l);
        LeftDecides(spine.node, s, full);
        SpacedLater(spine.node, gap, l);
        WriteLater(left, o, full);
        LaterChain(l.turn, o.turn, Write(left, o, full).turn);
        IdleLater(spine.node, l.turn, Write(left, o, full).turn);
      }
    case Pack(data) =>
      var t := Met(data, s.turn);
      if t.index < Count(data) {
        LeftLater(At(data, t.index), s.(turn := t), full);
        LeftDecides(At(data, t.index), s.(turn := t), full);
      }
    case Forward(ref) => LeftDecides(ref, s, full);
    case _ =>
  }

  // ---------------------------------------------------------------- the shortcut

  /** Every tree prints the same whether or not right halves that are flagged absent are left out. */
  lemma {:induction false} ShortcutPrintsTheSame(n: Node, s: Stream)
    ensures Print(n, s, false) == Print(n, s, true)
    decreases Size(n), 1
  {
    SameLeft(n, s);
    SameRight(n, Left(n, s, true));
    if Cached(Rhs, n) == No {
      LeftDecides(n, s, true);
      QuietRight(n, Left(n, s, true), true);
    }
  }

  lemma {:induction false} SameLeft(n: Node, s: Stream)
    ensures Left(n, s, false) == Left(n, s, true)
    decreases Size(n), 0
  {
    match n
    case Name(_) =>
    case Written(parts) => SameWrite(parts, s);
    case AbiTag(base, _) => SameLeft(base, s);
    case ObjCProto(ty, _) => ShortcutPrintsTheSame(ty, s);
    case Qual(child, _) => SameLeft(child, s);
    case Pointer(pointee) => SameLeft(pointee, s);
    case Reference(referent, rvalue) =>
      var (_, target, t) := Collapse(rvalue, referent, s.turn);
      SameLeft(target, s.(turn := t));
    case MemberPointer(classType, memberType) =>
      SameLeft(memberType, s);
      ShortcutPrintsTheSame(classType, Opened(memberType, Left(memberType, s, true), false));
    case Sided(spine, gap, left, _, _, _, _) =>
      if spine.Just? {
        SameLeft(spine.node, s);
        SameWrite(left, Spaced(spine.node, gap, Left(spine.node, s, true)));
      } else {
        SameWrite(left, s);
      }
    case Pack(data) =>
      var t := Met(data, s.turn);
      if t.index < Count(data) {
        SameLeft(At(data, t.index), s.(turn := t));
      }
    case PackExpansion(pattern) =>
      ShortcutPrintsTheSame(pattern, Stream(s.text, Turn(Max, Max)));
      var first := Print(pattern, Stream(s.text, Turn(Max, Max)), true);
      SameOthers(pattern, 1, first.turn.max, first);
    case Forward(ref) => SameLeft(ref, s);
  }

  lemma {:induction false} SameRight(n: Node, s: Stream)
    ensures Right(n, s, false) == Right(n, s, true)
    decreases Size(n), 0
  {
    match n
    case Qual(child, _) => SameRight(child, s);
    case Pointer(pointee) => SameRight(pointee, Closed(pointee, s));
    case Reference(referent, rvalue) =>
      var (_, target, t) := Collapse(rvalue, referent, s.turn);
      SameRight(target, Closed(target, s.(turn := t)));
    case MemberPointer(_, memberType) => SameRight(memberType, Closed(memberType, s));
    case Sided(spine, _, _, right, tail, _, _) =>
      SameWrite(right, s);
      var r := Write(right, s, true);
      if spine.Just? {
        SameRight(spine.node, r);
        SameWrite(tail, Right(spine.node, r, true));
      } else {
        SameWrite(tail, r);
      }
    case Pack(data) =>
      var t := Met(data, s.turn);
      if t.index < Count(data) {
        SameRight(At(data, t.index), s.(turn := t));
      }
    case Forward(ref) => SameRight(ref, s);
    case _ =>
  }

  lemma {:induction false} SameOthers(pattern: Node, i: nat, end: nat, s: Stream)
    ensures PrintOthers(pattern, i, end, s, false) == PrintOthers(pattern, i, end, s, true)
    decreases Size(pattern), 2, end - i
  {
    if i < end {
      var t := Put(s, ", ").(turn := Turn(i, s.turn.max));
      ShortcutPrintsTheSame(pattern, t);
      SameOthers(pattern, i + 1, end, Print(pattern, t, true));
    }
  }

  lemma {:induction false} SameWrite(ps: Parts, s: Stream)
    ensures Write(ps, s, false) == Write(ps, s, true)
    decreases SizeParts(ps), 0
  {
    match ps
    case Done =>
    case Text(text, more) => SameWrite(more, Put(s, text));
    case Whole(node, more) =>
      ShortcutPrintsTheSame(node, s);
      SameWrite(more, Print(node, s, true));
    case LeftHalf(node, more) =>
      SameLeft(node, s);
      SameWrite(more, Left(node, s, true));
    case Listed(nodes, more) =>
      SameWithComma(nodes, true, s);
      SameWrite(more, WithComma(nodes, true, s, true));
    case GapUnless(last, more) => SameWrite(more, if Last(s) != last then Put(s, " ") else s);
    case GapIf(last, more) => SameWrite(more, if Last(s) == last then Put(s, " ") else s);
  }

  lemma {:induction false} SameWithComma(ns: Nodes, first: bool, s: Stream)
    ensures WithComma(ns, first, s, false) == WithComma(ns, first, s, true)
    decreases SizeNodes(ns), 0
  {
    if ns.Cons? {
      var comma := if first then s else Put(s, ", ");
      ShortcutPrintsTheSame(ns.head, comma);
      var r := Print(ns.head, comma, true);
      if |r.text| == |comma.text| {
        SameWithComma(ns.rest, first, Rewound(r, |s.text|));
      } else {
        SameWithComma(ns.rest, false, r);
      }
    }
  }
}
