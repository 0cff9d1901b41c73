/**
  The demangler's recursive-descent parser: how far each sub-parser reads, and what it leaves on the
  stack of names.  A sub-parser says whether it built a node; the nodes themselves are left out.

  Sub-parsers call each other without reading in between, so that recursion is measured by the
  characters left and then by a rank, which for a qualified type depends on the next character.
 */
module DemangleParser {
  import opened DemangleManglings

  predicate IsLower(c: char) { 'a' <= c <= 'z' }

  predicate IsHexDigit(c: char) { IsDigit(c) || 'a' <= c <= 'f' || 'A' <= c <= 'F' }

  /** What follows the two letters of an expression. */
  datatype Form =
    | Nothing
    | Exprs(count: nat)
    | OneType
    | TypeThenExpr
    | Call
    | Conversion
    | Unresolved
    | Step
    | New
    | InitList
    | TypedInitList
    | SizeofPack
    | SizeofArgs
    | Rethrow

  function FormOf(c: char, d: char): Form {
    match c
    case 'a' => if d in "anNS" then Exprs(2) else if d in "dz" then Exprs(1) else if d == 't' then OneType else Nothing
    case 'c' =>
      if d == 'c' then TypeThenExpr else if d == 'l' then Call else if d == 'm' then Exprs(2)
      else if d == 'o' then Exprs(1) else if d == 'v' then Conversion else Nothing
    case 'd' =>
      if d in "ael" then Exprs(1) else if d == 'c' then TypeThenExpr else if d == 'n' then Unresolved
      else if d in "stvV" then Exprs(2) else Nothing
    case 'e' => if d in "oOq" then Exprs(2) else Nothing
    case 'g' => if d in "et" then Exprs(2) else Nothing
    case 'i' => if d == 'x' then Exprs(2) else if d == 'l' then InitList else Nothing
    case 'l' => if d in "esSt" then Exprs(2) else Nothing
    case 'm' => if d in "iIlL" then Exprs(2) else if d == 'm' then Step else Nothing
    case 'n' => if d in "aw" then New else if d == 'e' then Exprs(2) else if d in "gtx" then Exprs(1) else Nothing
    case 'o' => if d == 'n' then Unresolved else if d in "orR" then Exprs(2) else Nothing
    case 'p' => if d in "mlLt" then Exprs(2) else if d == 'p' then Step else if d == 's' then Exprs(1) else Nothing
    case 'q' => if d == 'u' then Exprs(3) else Nothing
    case 'r' => if d == 'c' then TypeThenExpr else if d in "mMsS" then Exprs(2) else Nothing
    case 's' =>
      if d == 'c' then TypeThenExpr else if d in "pz" then Exprs(1) else if d == 'r' then Unresolved
      else if d == 't' then OneType else if d == 'Z' then SizeofPack else if d == 'P' then SizeofArgs else Nothing
    case 't' =>
      if d in "ew" then Exprs(1) else if d == 'i' then OneType else if d == 'l' then TypedInitList
      else if d == 'r' then Rethrow else Nothing
    case _ => Nothing
  }

  /** Operators a fold expression may name. */
  predicate FoldOperator(c: char, d: char) {
    match c
    case 'a' => d in "anNS"
    case 'c' => d == 'm'
    case 'd' => d in "svV"
    case 'e' => d in "oOq"
    case 'g' => d in "et"
    case 'l' => d in "esSt"
    case 'm' => d in "iIlL"
    case 'n' => d == 'e'
    case 'o' => d in "orR"
    case 'p' => d in "lL"
    case 'r' => d in "mMsS"
    case _ => false
  }

  /** Reading went on from `from` to `to`; a node was built only from input, and then the names stand as before. */
  predicate Went(ok: bool, from: nat, to: nat, namesBefore: nat, names: nat) {
    from <= to && namesBefore <= names && (ok ==> from < to && namesBefore == names)
  }

  /** What a name tells the encoding that it is part of. */
  class NameState {
    var ctorDtorConversion: bool
    var endsWithTemplateArgs: bool

    constructor ()
      ensures !ctorDtorConversion && !endsWithTemplateArgs
    {
      ctorDtorConversion, endsWithTemplateArgs := false, false;
    }
  }

  class Parser {
    const input: string
    var first: nat
    /** How many names are on the stack. */
    var names: nat
    /** How many substitutions there are. */
    var subs: nat
    var tryToParseTemplateArgs: bool
    /**
      The tables of template parameters are not modelled: `answers` says, question by question, whether a
      lookup in them succeeds.  Everything below holds for all answers.
     */
    const answers: nat -> bool
    var asked: nat

    predicate Valid()
      reads this
    {
      first <= |input|
    }

    constructor (mangled: string, lookups: nat -> bool)
      ensures Valid() && input == mangled && answers == lookups && first == 0 && names == 0 && subs == 0
      ensures tryToParseTemplateArgs
    {
      input, answers := mangled, lookups;
      first, names, subs, asked := 0, 0, 0, 0;
      tryToParseTemplateArgs := true;
    }

    // -------------------------------------------------------------- reading characters

    function Look(ahead: nat): (c: char)
      reads this
    {
      CharAt(input, first + ahead)
    }

    function Left(): int
      reads this
    {
      |input| - first
    }

    predicate Starts(word: string)
      reads this
    {
      Here(input, first, word)
    }

    method Skip(n: nat)
      requires first + n <= |input|
      modifies this`first
      ensures first == old(first) + n
    {
      first := first + n;
    }

    method ConsumeIf(c: char) returns (b: bool)
      requires Valid()
      modifies this`first
      ensures Valid() && b == (old(first) < |input| && input[old(first)] == c)
      ensures first == old(first) + if b then 1 else 0
    {
      b := first < |input| && input[first] == c;
      if b { first := first + 1; }
    }

    method ConsumeWord(word: string) returns (b: bool)
      requires Valid()
      modifies this`first
      ensures Valid() && b == old(Starts(word))
      ensures first == old(first) + if b then |word| else 0
    {
      b := Starts(word);
      if b { first := first + |word|; }
    }

    method PushName()
      modifies this`names
      ensures names == old(names) + 1
    {
      names := names + 1;
    }

    /** Needs what `popTrailingNodeArray` asserts. */
    method PopTrailingNodeArray(from: nat)
      requires from <= names
      modifies this`names
      ensures names == from
    {
      names := from;
    }

    /** A lookup in a table that is not modelled. */
    method Ask() returns (b: bool)
      modifies this`asked
    {
      b := answers(asked);
      asked := asked + 1;
    }

    method ParseDigits() returns (some: bool)
      requires Valid()
      modifies this`first
      ensures Valid() && old(first) <= first && some == (old(first) < first)
      ensures AllDigits(input[old(first)..first]) && (first == |input| || !IsDigit(input[first]))
    {
      some := false;
      while first < |input| && IsDigit(input[first])
        invariant old(first) <= first <= |input| && some == (old(first) < first)
        invariant AllDigits(input[old(first)..first])
      {
        first, some := first + 1, true;
        RunGrows(input, old(first), first);
      }
    }

    /** The number read is empty when there was no digit, whether or not a sign was read. */
    method ParseNumber(allowNegative: bool) returns (some: bool)
      requires Valid()
      modifies this`first
      ensures Valid() && old(first) <= first && (some ==> old(first) < first)
      ensures var from := old(first) + if allowNegative && old(Look(0)) == 'n' then 1 else 0;
              && from <= first && AllDigits(input[from..first]) && (first == |input| || !IsDigit(input[first])) && some == (from < first)
    {
      if allowNegative { var _ := ConsumeIf('n'); }
      some := ParseDigits();
    }

    /** A `size_t`, which wraps; fails without a digit. */
    method ParsePositiveInteger() returns (ok: bool, value: nat)
      requires Valid()
      modifies this`first
      ensures Valid() && old(first) <= first && ok == (old(first) < first) && value < SizeSpan
      ensures value == NumberOf(input[old(first)..first])
      ensures AllDigits(input[old(first)..first]) && (first == |input| || !IsDigit(input[first]))
    {
      value, ok := 0, false;
      while IsDigit(Look(0))
        invariant old(first) <= first <= |input| && ok == (old(first) < first) && value < SizeSpan
        invariant value == NumberOf(input[old(first)..first]) && AllDigits(input[old(first)..first])
        decreases |input| - first
      {
        value := (value * 10 + (Look(0) as int - '0' as int)) % SizeSpan;
        first, ok := first + 1, true;
        RunGrows(input, old(first), first);
      }
    }

    /** Reads every source name that stands here. */
    method ParseBareSourceName(ghost want: Goal<string> := Any) returns (ok: bool, start: nat)
      requires Valid()
      modifies this`first
      ensures Valid() && old(first) <= first
      ensures ok ==> old(first) < start < first
      ensures want.Read? && IsId(want.what) && Here(input, old(first), SourceName(want.what)) ==>
                ok && first == old(first) + |SourceName(want.what)|
    {
      hide NumberOf, AllDigits, IsId, SourceName, Here;
      var number, length := ParsePositiveInteger();
      start := first;
      if want.Read? && IsId(want.what) && Here(input, old(first), SourceName(want.what)) {
        SourceStands(input, old(first), want.what, first);
        IdIsNot(want.what);
      }
      if !number || Left() < length { return false, start; }
      first := first + length;
      ok := length > 0;
    }

    method ParseSeqId() returns (ok: bool, id: nat)
      requires Valid()
      modifies this`first
      ensures Valid() && old(first) <= first && (ok ==> old(first) < first) && (ok <==> old(first) < first)
      ensures id == SeqNumberOf(input[old(first)..first])
      ensures AllSeqDigits(input[old(first)..first]) && (first == |input| || !(IsDigit(input[first]) || IsUpper(input[first])))
    {
      id, ok := 0, false;
      while IsDigit(Look(0)) || IsUpper(Look(0))
        invariant old(first) <= first <= |input| && ok == (old(first) < first)
        invariant id == SeqNumberOf(input[old(first)..first]) && AllSeqDigits(input[old(first)..first])
        decreases |input| - first
      {
        var c := Look(0);
        id := (id * 36 + (if IsDigit(c) then c as int - '0' as int else c as int - 'A' as int + 10)) % SizeSpan;
        first, ok := first + 1, true;
        RunGrows(input, old(first), first);
      }
    }

    method ParseCVQualifiers() returns (some: bool)
      requires Valid()
      modifies this`first
      ensures Valid() && old(first) <= first && some == (old(first) < first)
      ensures first == old(first) + QualLength(input, old(first))
      ensures old(Look(0)) in "rVK" ==> some
    {
      var r := ConsumeIf('r');
      var v := ConsumeIf('V');
      var k := ConsumeIf('K');
      some := r || v || k;
    }

    method ParseDiscriminator()
      requires Valid()
      modifies this`first
      ensures Valid() && old(first) <= first
    {
      if first == |input| { return; }
      if input[first] == '_' {
        var t := first + 1;
        if t != |input| {
          if IsDigit(input[t]) {
            first := t + 1;
          } else if input[t] == '_' {
            t := DigitsEnd(t + 1);
            if t != |input| && input[t] == '_' { first := t + 1; }
          }
        }
      } else if IsDigit(input[first]) {
        var t := DigitsEnd(first + 1);
        if t == |input| { first := |input|; }
      }
    }

    method DigitsEnd(from: nat) returns (t: nat)
      requires from <= |input|
      ensures from <= t <= |input|
    {
      t := from;
      while t != |input| && IsDigit(input[t])
        invariant from <= t <= |input|
        decreases |input| - t
      {
        t := t + 1;
      }
    }

    // -------------------------------------------------------------- names

    /** Reads every name that stands here, and notes how it ends. */
    method ParseName(state: NameState?, ghost want: Goal<Name> := Any) returns (ok: bool)
      requires Valid()
      modifies this, state
      ensures Valid() && Went(ok, old(first), first, old(names), names) && tryToParseTemplateArgs == old(tryToParseTemplateArgs)
      ensures want.Read? && old(tryToParseTemplateArgs) && NameAt(input, old(first), old(subs), want.what) ==>
                ok && first == old(first) + |WriteName(want.what)| && subs == old(subs) + NameAdds(want.what) && asked == old(asked)
      ensures want.Read? && old(tryToParseTemplateArgs) && NameAt(input, old(first), old(subs), want.what) && state != null ==>
                && state.endsWithTemplateArgs == (EndsWithArgs(want.what) || (want.what.Plain? && old(state.endsWithTemplateArgs)))
                && state.ctorDtorConversion == (HasStructor(want.what) || old(state.ctorDtorConversion))
      decreases |input| - first, 5
    {
      hide NameAt, UnscopedAt, ArgsAt, WriteName, WriteTypes, WritePart, TypesFit, ArgsFit, NameAdds, TypesAdd, Here;
      ghost var goal := want.Read? && tryToParseTemplateArgs && NameAt(input, first, subs, want.what);
      ghost var n := if goal then want.what else Plain(false, Id("", NoTags));
      if goal {
        NameCase(input, first, subs, n);
        if n.Plain? { PlainCase(input, first, subs, n); }
        if n.Template? { TemplateCase(input, first, subs, n); }
      }
      var _ := ConsumeIf('L');
      if Look(0) == 'N' { ok := ParseNestedName(state, want); return; }
      if Look(0) == 'Z' { ok := ParseLocalName(state); return; }
      if Look(0) == 'S' && Look(1) != 't' {
        ok := ParseSubstitution();
        if !ok { return; }
        if Look(0) != 'I' { return false; }
        ok := ParseTemplateArgs(state != null);
        if ok && state != null { state.endsWithTemplateArgs := true; }
        return;
      }
      ok := ParseUnscopedName(state, goal && n.std, if goal then Read(n.part) else Any);
      if !ok { return; }
      if Look(0) == 'I' {
        subs := subs + 1;
        ok := ParseTemplateArgs(state != null, if goal && n.Template? then Read(n.args) else Any);
        if ok && state != null { state.endsWithTemplateArgs := true; }
      }
    }

    method ParseLocalName(state: NameState?) returns (ok: bool)
      requires Valid()
      modifies this, state
      ensures Valid() && Went(ok, old(first), first, old(names), names) && tryToParseTemplateArgs == old(tryToParseTemplateArgs)
      decreases |input| - first, 2
    {
      ok := ConsumeIf('Z');
      if !ok { return; }
      ok := ParseEncoding();
      if !ok { return; }
      ok := ConsumeIf('E');
      if !ok { return; }
      var s := ConsumeIf('s');
      if s {
        ParseDiscriminator();
        return true;
      }
      var d := ConsumeIf('d');
      if d {
        var _ := ParseNumber(true);
        ok := ConsumeIf('_');
        if !ok { return; }
        ok := ParseName(state);
        return;
      }
      ok := ParseName(state);
      if !ok { return; }
      ParseDiscriminator();
    }

    method ParseUnscopedName(state: NameState?, ghost std: bool := false, ghost want: Goal<Part> := Any) returns (ok: bool)
      requires Valid()
      modifies this, state
      ensures Valid() && Went(ok, old(first), first, old(names), names) && tryToParseTemplateArgs == old(tryToParseTemplateArgs)
      ensures want.Read? && UnscopedAt(input, old(first), std, want.what) ==>
                ok && first == old(first) + (if std then 2 else 0) + |WritePart(want.what)| && subs == old(subs) && asked == old(asked)
      ensures want.Read? && UnscopedAt(input, old(first), std, want.what) && state != null ==>
                state.endsWithTemplateArgs == old(state.endsWithTemplateArgs) && state.ctorDtorConversion == old(state.ctorDtorConversion)
      decreases |input| - first, 4
    {
      hide UnscopedAt, PartAt, WritePart, Here;
      if want.Read? && UnscopedAt(input, first, std, want.what) { UnscopedCase(input, first, std, want.what); }
      var known := ConsumeWord("StL");
      if !known { known := ConsumeWord("St"); }
      ok := ParseUnqualifiedName(state, want);
    }

    method ParseUnqualifiedName(state: NameState?, ghost want: Goal<Part> := Any) returns (ok: bool)
      requires Valid()
      modifies this, state
      ensures Valid() && Went(ok, old(first), first, old(names), names) && tryToParseTemplateArgs == old(tryToParseTemplateArgs)
      ensures want.Read? && PartAt(input, old(first), want.what) ==>
                ok && first == old(first) + |WritePart(want.what)| && subs == old(subs) && asked == old(asked)
      ensures want.Read? && PartAt(input, old(first), want.what) && state != null ==>
                state.endsWithTemplateArgs == old(state.endsWithTemplateArgs) && state.ctorDtorConversion == old(state.ctorDtorConversion)
      decreases |input| - first, 3
    {
      hide PartAt, TagsAt, WritePart, WriteTags, BaseOf, Here, SimpleOperator, SourceName, IsId;
      ghost var goal := want.Read? && PartAt(input, first, want.what);
      if goal { PartCase(input, first, want.what); }
      if Look(0) == 'U' {
        ok := ParseUnnamedTypeName(state);
      } else if '1' <= Look(0) <= '9' {
        ok := ParseSourceName(if goal && want.what.Id? then Read(want.what.id) else Any);
      } else {
        var binding := ConsumeWord("DC");
        if binding {
          ok := ParseBindings();
        } else {
          ok := ParseOperatorName(state);
        }
      }
      if ok { ok := ParseAbiTags(if goal then Read(want.what.tags) else Any); }
    }

    /** One source name or more, up to an `E`. */
    method ParseBindings() returns (ok: bool)
      requires Valid()
      modifies this`first, this`names
      ensures Valid() && Went(ok, old(first), first, old(names), names)
    {
      var begin := names;
      var done := false;
      while !done
        invariant old(first) <= first <= |input| && begin == old(names) <= names && (done ==> old(first) < first)
        decreases |input| - first
      {
        ok := ParseSourceName();
        if !ok { return; }
        PushName();
        done := ConsumeIf('E');
      }
      PopTrailingNodeArray(begin);
      ok := true;
    }

    method ParseUnnamedTypeName(state: NameState?) returns (ok: bool)
      requires Valid()
      modifies this, state
      ensures Valid() && Went(ok, old(first), first, old(names), names) && tryToParseTemplateArgs == old(tryToParseTemplateArgs)
      decreases |input| - first, 2
    {
      ok := ConsumeWord("Ut");
      if ok {
        var _ := ParseNumber(false);
        ok := ConsumeIf('_');
        return;
      }
      ok := ConsumeWord("Ul");
      if ok {
        var paramsBegin := names;
        while Look(0) == 'T' && Look(1) in "yptn"
          invariant old(first) < first <= |input| && paramsBegin == old(names) <= names
          invariant tryToParseTemplateArgs == old(tryToParseTemplateArgs)
          decreases |input| - first
        {
          ok := ParseTemplateParamDecl();
          if !ok { return; }
          PushName();
        }
        PopTrailingNodeArray(paramsBegin);
        var none := ConsumeWord("vE");
        if !none {
          ok := ParseType();
          if !ok { return; }
          PushName();
          ok := ParseTypes('E');
          if !ok { return; }
        }
        PopTrailingNodeArray(paramsBegin);
        var _ := ParseNumber(false);
        ok := ConsumeIf('_');
        return;
      }
      ok := ConsumeWord("Ub");
      if ok {
        var _ := ParseNumber(false);
        ok := ConsumeIf('_');
      }
    }

    /** Reads every source name that stands here. */
    method ParseSourceName(ghost want: Goal<string> := Any) returns (ok: bool)
      requires Valid()
      modifies this`first
      ensures Valid() && Went(ok, old(first), first, old(names), names)
      ensures want.Read? && IsId(want.what) && Here(input, old(first), SourceName(want.what)) ==>
                ok && first == old(first) + |SourceName(want.what)|
    {
      hide NumberOf, AllDigits, IsId, SourceName, Here;
      var number, length := ParsePositiveInteger();
      if want.Read? && IsId(want.what) && Here(input, old(first), SourceName(want.what)) {
        SourceStands(input, old(first), want.what, first);
        IdIsNot(want.what);
      }
      if !number || Left() < length || length == 0 { return false; }
      first := first + length;
      ok := true;
    }

    method ParseOperatorName(state: NameState?) returns (ok: bool)
      requires Valid()
      modifies this, state
      ensures Valid() && Went(ok, old(first), first, old(names), names) && tryToParseTemplateArgs == old(tryToParseTemplateArgs)
      ensures old(SimpleOperator(Look(0), Look(1))) ==> ok && first == old(first) + 2 && subs == old(subs) && asked == old(asked)
      ensures old(SimpleOperator(Look(0), Look(1))) && state != null ==>
                state.endsWithTemplateArgs == old(state.endsWithTemplateArgs) && state.ctorDtorConversion == old(state.ctorDtorConversion)
      decreases |input| - first, 2
    {
      var c, d := Look(0), Look(1);
      if SimpleOperator(c, d) {
        Skip(2);
        return true;
      }
      if c == 'c' && d == 'v' {
        Skip(2);
        var saved := tryToParseTemplateArgs;
        tryToParseTemplateArgs := false;
        ok := ParseType();
        tryToParseTemplateArgs := saved;
        if ok && state != null { state.ctorDtorConversion := true; }
        return;
      }
      if (c == 'l' && d == 'i') || (c == 'v' && IsDigit(d)) {
        Skip(2);
        ok := ParseSourceName();
        return;
      }
      ok := false;
    }

    method ParseCtorDtorName(state: NameState?) returns (ok: bool)
      requires Valid()
      modifies this, state
      ensures Valid() && Went(ok, old(first), first, old(names), names) && tryToParseTemplateArgs == old(tryToParseTemplateArgs)
      ensures old(IsStructor(Look(0), Look(1))) ==>
                ok && first == old(first) + 2 && subs == old(subs) && asked == old(asked)
      ensures old(IsStructor(Look(0), Look(1))) && state != null ==>
                state.endsWithTemplateArgs == old(state.endsWithTemplateArgs) && state.ctorDtorConversion
      decreases |input| - first, 2
    {
      ok := ConsumeIf('C');
      if ok {
        var inherited := ConsumeIf('I');
        if Look(0) !in "12345" { return false; }
        Skip(1);
        if state != null { state.ctorDtorConversion := true; }
        if inherited { ok := ParseName(state); }
        return;
      }
      if Look(0) == 'D' && Look(1) in "01245" {
        Skip(2);
        if state != null { state.ctorDtorConversion := true; }
        return true;
      }
      ok := false;
    }

    /** Reads every nested name that stands here. */
    method ParseNestedName(state: NameState?, ghost want: Goal<Name> := Any) returns (ok: bool)
      requires Valid()
      modifies this, state
      ensures Valid() && Went(ok, old(first), first, old(names), names) && tryToParseTemplateArgs == old(tryToParseTemplateArgs)
      ensures want.Read? && want.what.Nested? && old(tryToParseTemplateArgs) && NameAt(input, old(first), old(subs), want.what) ==>
                ok && first == old(first) + |WriteName(want.what)| && subs == old(subs) + NameAdds(want.what) && asked == old(asked)
      ensures want.Read? && want.what.Nested? && old(tryToParseTemplateArgs) && NameAt(input, old(first), old(subs), want.what) && state != null ==>
                && state.endsWithTemplateArgs == EndsWithArgs(want.what)
                && state.ctorDtorConversion == (HasStructor(want.what) || old(state.ctorDtorConversion))
      decreases |input| - first, 2
    {
      hide NameAt, CompsAt, WriteName, WriteComps, Here, QualLength, CompsAdd, LastIsArgs, AnyStructor, NameAdds, EndsWithArgs, HasStructor;
      ghost var goal := want.Read? && want.what.Nested? && tryToParseTemplateArgs && NameAt(input, first, subs, want.what);
      if goal { NestedFacts(input, first, subs, want.what); }
      ok := ConsumeIf('N');
      if !ok { return; }
      var _ := ParseCVQualifiers();
      var r := ConsumeIf('O');
      if !r { r := ConsumeIf('R'); }
      var soFar := ConsumeWord("St");
      ok, soFar := ParseComponents(state, soFar, if goal then Read(want.what.comps) else Any);
      if !ok { return; }
      if !soFar || subs == 0 { return false; }
      subs := subs - 1;
      ok := true;
    }

    /** The parts of a nested name, up to an `E`; `before` says that some part was read already. */
    method ParseComponents(state: NameState?, before: bool, ghost want: Goal<Comps> := Any) returns (ok: bool, soFar: bool)
      requires Valid()
      modifies this, state
      ensures Valid() && Went(ok, old(first), first, old(names), names) && tryToParseTemplateArgs == old(tryToParseTemplateArgs)
      ensures want.Read? && want.what.Comps? && old(tryToParseTemplateArgs) && CompsAt(input, old(first), old(subs), before, want.what) ==>
                && ok && soFar && first == old(first) + |WriteComps(want.what)| + 1
                && subs == old(subs) + CompsAdd(want.what) && asked == old(asked)
      ensures want.Read? && want.what.Comps? && old(tryToParseTemplateArgs) && CompsAt(input, old(first), old(subs), before, want.what)
              && state != null ==>
                && state.endsWithTemplateArgs == LastIsArgs(want.what)
                && state.ctorDtorConversion == (AnyStructor(want.what) || old(state.ctorDtorConversion))
      decreases |input| - first, 5
    {
      hide CompsAt, CompAt, WriteComps, WriteComp, CompsFit, CompsAdd, CompAdds, Here;
      ghost var goal := want.Read? && want.what.Comps? && tryToParseTemplateArgs && CompsAt(input, first, subs, before, want.what);
      ghost var left, end, total := NoComps, first, subs;
      if goal {
        left, end, total := want.what, first + |WriteComps(want.what)|, subs + CompsAdd(want.what);
        CompsStep(input, first, subs, before, left);
      }
      soFar := before;
      var done := ConsumeIf('E');
      while !done
        invariant old(first) <= first <= |input| && names == old(names) && (done ==> old(first) < first)
        invariant tryToParseTemplateArgs == old(tryToParseTemplateArgs)
        invariant goal && !done ==> left.Comps? && CompsAt(input, first, subs, soFar, left) && first + |WriteComps(left)| == end
        invariant goal && done ==> left.NoComps? && first == end + 1 && soFar
        invariant goal ==> subs + CompsAdd(left) == total && asked == old(asked)
        invariant goal && state != null ==>
                    && LastIsArgs(want.what) == (if done then state.endsWithTemplateArgs else LastIsArgs(left))
                    && (AnyStructor(want.what) || old(state.ctorDtorConversion)) == (AnyStructor(left) || state.ctorDtorConversion)
        decreases |input| - first
      {
        if goal { CompsStep(input, first, subs, soFar, left); }
        ok, soFar := ParseComponent(state, soFar, if goal then Read(left.head) else Any);
        if !ok { return; }
        if goal {
          left := left.tail;
          if left.Comps? { CompsStep(input, first, subs, true, left); } else { NoCompsLeft(input, first, subs); }
        }
        done := ConsumeIf('E');
      }
      if goal { NoCompsLeft(input, first, subs); }
      ok := true;
    }

    /** One round of the loop over the parts of a nested name; `before` says that some part was read already. */
    method ParseComponent(state: NameState?, before: bool, ghost want: Goal<Comp> := Any) returns (ok: bool, soFar: bool)
      requires Valid()
      modifies this, state
      ensures Valid() && Went(ok, old(first), first, old(names), names) && tryToParseTemplateArgs == old(tryToParseTemplateArgs)
      ensures ok && before ==> soFar
      ensures want.Read? && old(tryToParseTemplateArgs) && CompAt(input, old(first), old(subs), before, want.what) ==>
                ok && soFar && first == old(first) + |WriteComp(want.what)| && subs == old(subs) + CompAdds(want.what) && asked == old(asked)
      ensures want.Read? && old(tryToParseTemplateArgs) && CompAt(input, old(first), old(subs), before, want.what) && state != null ==>
                && state.endsWithTemplateArgs == want.what.Args?
                && state.ctorDtorConversion == (want.what.Structor? || old(state.ctorDtorConversion))
      decreases |input| - first, 4
    {
      hide CompAt, PartAt, SubAt, ArgsAt, TagsAt, IsStructor, CompAdds, WriteComp, WriteSub, WriteTypes, WritePart, WriteTags, TypesFit, ArgsFit, TypesAdd, Here;
      ghost var goal := want.Read? && tryToParseTemplateArgs && CompAt(input, first, subs, before, want.what);
      ghost var comp := if goal then want.what else From(First);
      if goal { CompCase(input, first, subs, before, comp); }
      soFar := before;
      var _ := ConsumeIf('L');
      var m := ConsumeIf('M');
      if m { return before, before; }
      if Look(0) == 'T' {
        ok := ParseTemplateParam();
      } else if Look(0) == 'I' {
        if goal { ArgsPartCase(input, first, subs, before, comp); }
        ok := ParseTemplateArgs(state != null, if goal then Read(comp.types) else Any);
        if !ok || !before { return false, before; }
        if state != null { state.endsWithTemplateArgs := true; }
        subs := subs + 1;
        return;
      } else if Look(0) == 'D' && Look(1) in "tT" {
        ok := ParseDecltype();
      } else if Look(0) == 'S' && Look(1) != 't' {
        if goal { FromCase(input, first, subs, before, comp); }
        ok := ParseSubstitution(if goal then Read(comp.sub) else Any);
        if !ok { return; }
        if state != null { state.endsWithTemplateArgs := false; }
        if before { subs := subs + 1; }
        return true, true;
      } else if Look(0) == 'C' || (Look(0) == 'D' && Look(1) != 'C') {
        if !before { return false, before; }
        if goal { StructorCase(input, first, subs, before, comp); }
        ok := ParseStructor(state, if goal then Read(comp.tags) else Any);
        return;
      } else {
        if goal { NamedCase(input, first, subs, before, comp); }
        ok := ParseUnqualifiedName(state, if goal then Read(comp.part) else Any);
      }
      if !ok { return; }
      if state != null { state.endsWithTemplateArgs := false; }
      subs := subs + 1;
      soFar := true;
    }

    /** A constructor or destructor with its tags, as a part of a nested name. */
    method ParseStructor(state: NameState?, ghost want: Goal<Tags> := Any) returns (ok: bool)
      requires Valid()
      modifies this, state
      ensures Valid() && Went(ok, old(first), first, old(names), names) && tryToParseTemplateArgs == old(tryToParseTemplateArgs)
      ensures want.Read? && old(IsStructor(Look(0), Look(1))) && TagsAt(input, old(first) + 2, want.what) ==>
                ok && first == old(first) + 2 + |WriteTags(want.what)| && subs == old(subs) + 1 && asked == old(asked)
      ensures want.Read? && old(IsStructor(Look(0), Look(1))) && TagsAt(input, old(first) + 2, want.what) && state != null ==>
                !state.endsWithTemplateArgs && state.ctorDtorConversion
      decreases |input| - first, 3
    {
      hide IsStructor, TagsAt, WriteTags;
      ok := ParseCtorDtorName(state);
      if !ok { return; }
      if state != null { state.endsWithTemplateArgs := false; }
      ok := ParseAbiTags(want);
      if ok { subs := subs + 1; }
    }

    method ParseSimpleId() returns (ok: bool)
      requires Valid()
      modifies this
      ensures Valid() && Went(ok, old(first), first, old(names), names) && tryToParseTemplateArgs == old(tryToParseTemplateArgs)
      decreases |input| - first, 3
    {
      ok := ParseSourceName();
      if ok && Look(0) == 'I' { ok := ParseTemplateArgs(false); }
    }

    method ParseDestructorName() returns (ok: bool)
      requires Valid()
      modifies this
      ensures Valid() && Went(ok, old(first), first, old(names), names) && tryToParseTemplateArgs == old(tryToParseTemplateArgs)
      decreases |input| - first, 4
    {
      if IsDigit(Look(0)) { ok := ParseSimpleId(); } else { ok := ParseUnresolvedType(); }
    }

    method ParseUnresolvedType() returns (ok: bool)
      requires Valid()
      modifies this
      ensures Valid() && Went(ok, old(first), first, old(names), names) && tryToParseTemplateArgs == old(tryToParseTemplateArgs)
      decreases |input| - first, 3
    {
      if Look(0) == 'T' {
        ok := ParseTemplateParam();
        if ok { subs := subs + 1; }
      } else if Look(0) == 'D' {
        ok := ParseDecltype();
        if ok { subs := subs + 1; }
      } else {
        ok := ParseSubstitution();
      }
    }

    method ParseBaseUnresolvedName() returns (ok: bool)
      requires Valid()
      modifies this
      ensures Valid() && Went(ok, old(first), first, old(names), names) && tryToParseTemplateArgs == old(tryToParseTemplateArgs)
      decreases |input| - first, 5
    {
      if IsDigit(Look(0)) { ok := ParseSimpleId(); return; }
      ok := ConsumeWord("dn");
      if ok { ok := ParseDestructorName(); return; }
      var _ := ConsumeWord("on");
      ok := ParseOperatorName(null);
      if ok && Look(0) == 'I' { ok := ParseTemplateArgs(false); }
    }

    method ParseUnresolvedName() returns (ok: bool)
      requires Valid()
      modifies this
      ensures Valid() && Went(ok, old(first), first, old(names), names) && tryToParseTemplateArgs == old(tryToParseTemplateArgs)
      decreases |input| - first, 6
    {
      ok := ConsumeWord("srN");
      if ok {
        ok := ParseUnresolvedType();
        if !ok { return; }
        if Look(0) == 'I' {
          ok := ParseTemplateArgs(false);
          if !ok { return; }
        }
        var done := ConsumeIf('E');
        if !done {
          ok := ParseSimpleIds();
          if !ok { return; }
        }
        ok := ParseBaseUnresolvedName();
        return;
      }
      var _ := ConsumeWord("gs");
      var sr := ConsumeWord("sr");
      if !sr { ok := ParseBaseUnresolvedName(); return; }
      if IsDigit(Look(0)) {
        ok := ParseSimpleIds();
        if !ok { return; }
      } else {
        ok := ParseUnresolvedType();
        if !ok { return; }
        if Look(0) == 'I' {
          ok := ParseTemplateArgs(false);
          if !ok { return; }
        }
      }
      ok := ParseBaseUnresolvedName();
    }

    /** One simple id or more, up to an `E`. */
    method ParseSimpleIds() returns (ok: bool)
      requires Valid()
      modifies this
      ensures Valid() && Went(ok, old(first), first, old(names), names) && tryToParseTemplateArgs == old(tryToParseTemplateArgs)
      decreases |input| - first, 4
    {
      var done := false;
      while !done
        invariant old(first) <= first <= |input| && names == old(names) && (done ==> old(first) < first)
        invariant tryToParseTemplateArgs == old(tryToParseTemplateArgs)
        decreases |input| - first
      {
        ok := ParseSimpleId();
        if !ok { return; }
        done := ConsumeIf('E');
      }
      ok := true;
    }

    /** Adds tags to a node that was read before; fails on a tag without a name. */
    method ParseAbiTags(ghost want: Goal<Tags> := Any) returns (ok: bool)
      requires Valid()
      modifies this`first
      ensures Valid() && old(first) <= first
      ensures old(Look(0)) != 'B' ==> ok && first == old(first)
      ensures want.Read? && TagsAt(input, old(first), want.what) ==> ok && first == old(first) + |WriteTags(want.what)|
    {
      hide TagsAt, WriteTags, SourceName, IsId, Here;
      ghost var goal := want.Read? && TagsAt(input, first, want.what);
      ghost var left, end := NoTags, first;
      if goal {
        left, end := want.what, first + |WriteTags(want.what)|;
        TagsCase(input, first, left);
      }
      ok := true;
      var tag := ConsumeIf('B');
      while tag
        invariant old(first) <= first <= |input|
        invariant old(Look(0)) != 'B' ==> !tag && first == old(first)
        invariant goal && !tag ==> first == end
        invariant goal && tag ==> left.Tag? && first > 0 && TagsAt(input, first - 1, left) && first - 1 + |WriteTags(left)| == end
        decreases |input| - first
      {
        if goal { TagsCase(input, first - 1, left); }
        var start;
        ok, start := ParseBareSourceName(if goal then Read(left.name) else Any);
        if !ok { return; }
        if goal {
          left := left.more;
          TagsCase(input, first, left);
        }
        tag := ConsumeIf('B');
      }
      ok := true;
    }

    // -------------------------------------------------------------- types

    /** Types up to `stop`. */
    method ParseTypes(stop: char) returns (ok: bool)
      requires Valid()
      modifies this
      ensures Valid() && Went(ok, old(first), first, old(names), names) && tryToParseTemplateArgs == old(tryToParseTemplateArgs)
      decreases |input| - first, 9
    {
      var begin := names;
      var done := ConsumeIf(stop);
      while !done
        invariant old(first) <= first <= |input| && begin == old(names) <= names && (done ==> old(first) < first)
        invariant tryToParseTemplateArgs == old(tryToParseTemplateArgs)
        decreases |input| - first
      {
        ok := ParseType();
        if !ok { return; }
        PushName();
        done := ConsumeIf(stop);
      }
      PopTrailingNodeArray(begin);
      ok := true;
    }

    /** Reads every function type that stands here. */
    method ParseFunctionType(ghost want: Goal<Type> := Any) returns (ok: bool)
      requires Valid()
      modifies this
      ensures Valid() && Went(ok, old(first), first, old(names), names) && tryToParseTemplateArgs == old(tryToParseTemplateArgs)
      ensures want.Read? && want.what.Function? && old(tryToParseTemplateArgs) && TypeAt(input, old(first), old(subs), want.what) ==>
                ok && first == old(first) + |WriteType(want.what)| && subs == old(subs) + Adds(want.what) - 1 && asked == old(asked)
      decreases |input| - first, 2
    {
      hide TypeAt, WriteType, WriteParams, Here, TypesFit, ArgsFit, NoVoid, Adds, QualLength, RefLetter;
      ghost var goal := want.Read? && want.what.Function? && tryToParseTemplateArgs && TypeAt(input, first, subs, want.what);
      if goal { FunctionFacts(input, first, subs, want.what); }
      var _ := ParseCVQualifiers();
      ok := ParseExceptionSpec();
      if !ok { return; }
      var _ := ConsumeWord("Dx");
      ok := ConsumeIf('F');
      if !ok { return; }
      var _ := ConsumeIf('Y');
      ok := ParseType(if goal then Read(want.what.ret) else Any);
      if !ok { return; }
      ok := ParseParameters(if goal then Read(want.what.params) else Any, if goal then want.what.ref else NoRef);
    }

    /** Fails only on a specification that is begun and not completed. */
    method ParseExceptionSpec() returns (ok: bool)
      requires Valid()
      modifies this
      ensures Valid() && old(first) <= first && old(names) <= names && (ok ==> names == old(names))
      ensures tryToParseTemplateArgs == old(tryToParseTemplateArgs)
      ensures old(Starts("Do")) ==> ok && first == old(first) + 2 && subs == old(subs) && asked == old(asked)
      ensures old(!Starts("Do") && !Starts("DO") && !Starts("Dw")) ==>
                ok && first == old(first) && subs == old(subs) && asked == old(asked)
      decreases |input| - first, 1
    {
      var b := ConsumeWord("Do");
      if b { return true; }
      b := ConsumeWord("DO");
      if b {
        ok := ParseExpr();
        if ok { ok := ConsumeIf('E'); }
        return;
      }
      b := ConsumeWord("Dw");
      if b { ok := ParseTypes('E'); return; }
      ok := true;
    }

    /** Reads every parameter list that stands here, with what closes it. */
    method ParseParameters(ghost want: Goal<Types> := Any, ghost ref: RefQualifier := NoRef) returns (ok: bool)
      requires Valid()
      modifies this
      ensures Valid() && Went(ok, old(first), first, old(names), names) && tryToParseTemplateArgs == old(tryToParseTemplateArgs)
      ensures want.Read? && old(tryToParseTemplateArgs) && TypesFit(want.what, old(subs)) && NoVoid(want.what)
              && Here(input, old(first), WriteParams(want.what) + (RefLetter(ref) + "E")) ==>
                && ok && first == old(first) + |WriteParams(want.what)| + |RefLetter(ref)| + 1
                && subs == old(subs) + TypesAdd(want.what) && asked == old(asked)
      decreases |input| - first, 9
    {
      hide TypesAt, TypeAt, TypesFit, ArgsFit, WriteTypes, WriteType, Here, NoVoid, TypesAdd, Adds, CanBegin, RefLetter;
      ghost var goal := want.Read? && tryToParseTemplateArgs && TypesFit(want.what, subs) && NoVoid(want.what)
                        && Here(input, first, WriteParams(want.what) + (RefLetter(ref) + "E"));
      ghost var left, blank, total := NoTypes, false, subs;
      ghost var end := first;
      if goal {
        left, blank, total := want.what, want.what.NoTypes?, subs + TypesAdd(want.what);
        ParamsOpen(input, first, subs, left, ref);
        end := first + |WriteParams(left)|;
      }
      var begin := names;
      while true
        invariant old(first) <= first <= |input| && begin == old(names) <= names
        invariant tryToParseTemplateArgs == old(tryToParseTemplateArgs)
        invariant goal ==> ClosedBy(input, end, ref) && subs + TypesAdd(left) == total && asked == old(asked)
        invariant goal && blank ==> left == NoTypes && CharAt(input, first) == 'v' && first + 1 == end
        invariant goal && !blank ==> TypesAt(input, first, subs, left) && NoVoid(left) && first + |WriteTypes(left)| == end
        decreases |input| - first
      {
        if goal && !blank { ListSees(input, first, subs, left, ref); }
        var e := ConsumeIf('E');
        if e { break; }
        var v := ConsumeIf('v');
        if v {
          if goal {
            blank := false;
            NothingLeft(input, first, subs, ref);
          }
          continue;
        }
        var re := ConsumeWord("RE");
        if re { break; }
        var oe := ConsumeWord("OE");
        if oe { break; }
        if goal {
          TypesStep(input, first, subs, left);
          StillNoVoid(left);
        }
        ok := ParseType(if goal then Read(left.head) else Any);
        if !ok { return; }
        if goal { left := left.tail; }
        PushName();
      }
      PopTrailingNodeArray(begin);
      ok := true;
    }

    method ParseVectorType() returns (ok: bool)
      requires Valid()
      modifies this
      ensures Valid() && Went(ok, old(first), first, old(names), names) && tryToParseTemplateArgs == old(tryToParseTemplateArgs)
      decreases |input| - first, 2
    {
      ok := ConsumeWord("Dv");
      if !ok { return; }
      if '1' <= Look(0) <= '9' {
        var _ := ParseNumber(false);
        ok := ConsumeIf('_');
        if !ok { return; }
        var pixel := ConsumeIf('p');
        if pixel { return true; }
        ok := ParseType();
        return;
      }
      var blank := ConsumeIf('_');
      if !blank {
        ok := ParseExpr();
        if !ok { return; }
        ok := ConsumeIf('_');
        if !ok { return; }
      }
      ok := ParseType();
    }

    method ParseDecltype() returns (ok: bool)
      requires Valid()
      modifies this
      ensures Valid() && Went(ok, old(first), first, old(names), names) && tryToParseTemplateArgs == old(tryToParseTemplateArgs)
      decreases |input| - first, 2
    {
      ok := ConsumeIf('D');
      if !ok { return; }
      ok := ConsumeIf('t');
      if !ok { ok := ConsumeIf('T'); }
      if !ok { return; }
      ok := ParseExpr();
      if ok { ok := ConsumeIf('E'); }
    }

    method ParseArrayType(ghost want: Goal<Type> := Any) returns (ok: bool)
      requires Valid()
      modifies this
      ensures Valid() && Went(ok, old(first), first, old(names), names) && tryToParseTemplateArgs == old(tryToParseTemplateArgs)
      ensures want.Read? && want.what.Array? && old(tryToParseTemplateArgs) && TypeAt(input, old(first), old(subs), want.what) ==>
                ok && first == old(first) + |WriteType(want.what)| && subs == old(subs) + Adds(want.what) - 1 && asked == old(asked)
      decreases |input| - first, 2
    {
      hide TypeAt, WriteType, Here, AllDigits, Adds;
      ghost var goal := want.Read? && want.what.Array? && tryToParseTemplateArgs && TypeAt(input, first, subs, want.what);
      if goal {
        ArrayCase(input, first, subs, want.what);
        BoundSees(input, first + 1, want.what.bound, WriteType(want.what.inner));
      }
      ok := ConsumeIf('A');
      if !ok { return; }
      if IsDigit(Look(0)) {
        ghost var from := first;
        var _ := ParseNumber(false);
        if goal { RunEnds(input, from, want.what.bound, "_" + WriteType(want.what.inner), first); UnderscoreHere(input, first, WriteType(want.what.inner)); }
        ok := ConsumeIf('_');
        if !ok { return; }
      } else {
        var blank := ConsumeIf('_');
        if !blank {
          ok := ParseExpr();
          if !ok { return; }
          ok := ConsumeIf('_');
          if !ok { return; }
        }
      }
      ok := ParseType(if goal then Read(want.what.inner) else Any);
    }

    method ParsePointerToMemberType(ghost want: Goal<Type> := Any) returns (ok: bool)
      requires Valid()
      modifies this
      ensures Valid() && Went(ok, old(first), first, old(names), names) && tryToParseTemplateArgs == old(tryToParseTemplateArgs)
      ensures want.Read? && want.what.Member? && old(tryToParseTemplateArgs) && TypeAt(input, old(first), old(subs), want.what) ==>
                ok && first == old(first) + |WriteType(want.what)| && subs == old(subs) + Adds(want.what) - 1 && asked == old(asked)
      decreases |input| - first, 2
    {
      hide TypeAt, WriteType, Adds;
      ghost var goal := want.Read? && want.what.Member? && tryToParseTemplateArgs && TypeAt(input, first, subs, want.what);
      if goal { MemberCase(input, first, subs, want.what); }
      ok := ConsumeIf('M');
      if !ok { return; }
      ok := ParseType(if goal then Read(want.what.cls) else Any);
      if ok { ok := ParseType(if goal then Read(want.what.inner) else Any); }
    }

    method ParseClassEnumType(ghost want: Goal<Name> := Any) returns (ok: bool)
      requires Valid()
      modifies this
      ensures Valid() && Went(ok, old(first), first, old(names), names) && tryToParseTemplateArgs == old(tryToParseTemplateArgs)
      ensures want.Read? && old(tryToParseTemplateArgs) && NameAt(input, old(first), old(subs), want.what) ==>
                ok && first == old(first) + |WriteName(want.what)| && subs == old(subs) + NameAdds(want.what) && asked == old(asked)
      decreases |input| - first, 6
    {
      hide NameAt, WriteName, NameAdds, Here;
      if want.Read? && NameAt(input, first, subs, want.what) {
        NameCase(input, first, subs, want.what);
        NotElaborated(input, first);
      }
      var elaborated := ConsumeWord("Ts");
      if !elaborated { elaborated := ConsumeWord("Tu"); }
      if !elaborated { elaborated := ConsumeWord("Te"); }
      ok := ParseName(null, want);
    }

    method ParseQualifiedType(ghost want: Goal<Type> := Any) returns (ok: bool)
      requires Valid()
      modifies this
      ensures Valid() && Went(ok, old(first), first, old(names), names) && tryToParseTemplateArgs == old(tryToParseTemplateArgs)
      ensures want.Read? && want.what.Qualified? && old(tryToParseTemplateArgs) && TypeAt(input, old(first), old(subs), want.what) ==>
                ok && first == old(first) + |WriteType(want.what)| && subs == old(subs) + Adds(want.what) - 1 && asked == old(asked)
      decreases |input| - first, if Look(0) in "UrVK" then 2 else 9
    {
      hide TypeAt, WriteType, Adds, QualLength;
      ghost var goal := want.Read? && want.what.Qualified? && tryToParseTemplateArgs && TypeAt(input, first, subs, want.what);
      if goal { QualifiedCase(input, first, subs, want.what); }
      var vendor := ConsumeIf('U');
      if vendor {
        var start;
        ok, start := ParseBareSourceName();
        if !ok { return; }
        ok := ParseProtocol(start, first);
        if !ok { return; }
        ok := ParseQualifiedType();
        return;
      }
      var _ := ParseCVQualifiers();
      ok := ParseType(if goal then Read(want.what.inner) else Any);
    }

    /** A qualifier that begins with `objcproto` must go on with a source name; the input is left where it was. */
    method ParseProtocol(start: nat, end: nat) returns (ok: bool)
      requires start <= end <= |input|
    {
      var qualifier := input[start..end];
      if |qualifier| < 9 || qualifier[..9] != "objcproto" { return true; }
      var inner := new Parser(qualifier[9..], answers);
      var at;
      ok, at := inner.ParseBareSourceName();
    }

    /** Reads every type that stands here, whole. */
    method ParseType(ghost want: Goal<Type> := Any) returns (ok: bool)
      requires Valid()
      modifies this
      ensures Valid() && Went(ok, old(first), first, old(names), names) && tryToParseTemplateArgs == old(tryToParseTemplateArgs)
      ensures want.Read? && old(tryToParseTemplateArgs) && TypeAt(input, old(first), old(subs), want.what) ==>
                ok && first == old(first) + |WriteType(want.what)| && subs == old(subs) + Adds(want.what) && asked == old(asked)
      decreases |input| - first, 8
    {
      hide TypeAt, SubAt, ArgsAt, WriteType, WriteSub, WriteTypes, Adds, IsBuiltin, IsExtended, Here, TypesFit, ArgsFit, CanBegin;
      ghost var goal := want.Read? && tryToParseTemplateArgs && TypeAt(input, first, subs, want.what);
      ghost var sub, args := Any, Any;
      if goal {
        TypeCases(input, first, subs, want.what);
        if want.what.Known? {
          KnownCase(input, first, subs, want.what);
          sub := Read(want.what.sub);
        }
        if want.what.Special? {
          SpecialCase(input, first, subs, want.what);
          sub, args := Read(want.what.sub), Read(want.what.args);
        }
      }
      if IsBuiltin(Look(0)) {
        SomethingHere(input, first);
        Skip(1);
        return true;
      }
      var c, d := Look(0), Look(1);
      if c == 'D' && IsExtended(d) {
        SomethingHere(input, first);
        Skip(2);
        return true;
      }
      if c == 'S' && d != '\0' && d != 't' {
        ok := ParseSubstitution(sub);
        if !ok { return; }
        if !(tryToParseTemplateArgs && Look(0) == 'I') { return; }
        ok := ParseTemplateArgs(false, args);
      } else {
        ok := ParseCompoundType(want);
      }
      if ok { subs := subs + 1; }
    }

    /** Reads every type that is more than a builtin one or a substitution. */
    method ParseCompoundType(ghost want: Goal<Type> := Any) returns (ok: bool)
      requires Valid()
      modifies this
      ensures Valid() && Went(ok, old(first), first, old(names), names) && tryToParseTemplateArgs == old(tryToParseTemplateArgs)
      ensures want.Read? && Compound(want.what) && old(tryToParseTemplateArgs) && TypeAt(input, old(first), old(subs), want.what) ==>
                ok && first == old(first) + |WriteType(want.what)| && subs == old(subs) + Adds(want.what) - 1 && asked == old(asked)
      decreases |input| - first, 7
    {
      hide TypeAt, NameAt, WriteType, WriteName, Adds, NameAdds, CanBegin, IsId, SourceName;
      ghost var goal := want.Read? && Compound(want.what) && tryToParseTemplateArgs && TypeAt(input, first, subs, want.what);
      ghost var t := if goal then want.what else Builtin('v');
      if goal { CompoundHead(input, first, subs, t); }
      var c, d := Look(0), Look(1);
      if c in "rVK" {
        ok := ParseWithQualifiers(want);
      } else if c == 'U' {
        ok := ParseQualifiedType();
      } else if c == 'u' {
        if goal { VendorCase(input, first, subs, t); }
        Skip(1);
        var start;
        ok, start := ParseBareSourceName(if goal then Read(t.id) else Any);
      } else if c == 'D' {
        ok := ParseDType(want);
      } else if c == 'F' {
        ok := ParseFunctionType(want);
      } else if c == 'A' {
        ok := ParseArrayType(want);
      } else if c == 'M' {
        ok := ParsePointerToMemberType(want);
      } else if c == 'T' && d !in "sue" {
        ok := ParseTemplateParam();
        if ok && tryToParseTemplateArgs && Look(0) == 'I' { ok := ParseTemplateArgs(false); }
      } else if c in "PROCG" {
        if goal { PrefixedCase(input, first, subs, t); }
        Skip(1);
        ok := ParseType(if goal then Read(t.inner) else Any);
      } else {
        if goal { ClassCase(input, first, subs, t); }
        ok := ParseClassEnumType(if goal then Read(t.name) else Any);
      }
    }

    /** Qualifiers go with a function type where one follows, and otherwise in front of any type. */
    method ParseWithQualifiers(ghost want: Goal<Type> := Any) returns (ok: bool)
      requires Valid() && Look(0) in "rVK"
      modifies this
      ensures Valid() && Went(ok, old(first), first, old(names), names) && tryToParseTemplateArgs == old(tryToParseTemplateArgs)
      ensures want.Read? && (want.what.Qualified? || want.what.Function?) && old(tryToParseTemplateArgs)
              && TypeAt(input, old(first), old(subs), want.what) ==>
                ok && first == old(first) + |WriteType(want.what)| && subs == old(subs) + Adds(want.what) - 1 && asked == old(asked)
      decreases |input| - first, 6
    {
      hide TypeAt, WriteType, Adds, QualLength, Here, FunctionRest;
      if want.Read? && tryToParseTemplateArgs && TypeAt(input, first, subs, want.what) {
        if want.what.Qualified? { QualifiedCase(input, first, subs, want.what); }
        if want.what.Function? { FunctionCase(input, first, subs, want.what); }
      }
      QualLengthIs(input, first);
      var after := if Look(0) == 'r' then 1 else 0;
      if Look(after) == 'V' { after := after + 1; }
      if Look(after) == 'K' { after := after + 1; }
      assert after == QualLength(input, first);
      if Look(after) == 'F' || (Look(after) == 'D' && Look(after + 1) in "oOwx") {
        ok := ParseFunctionType(want);
      } else {
        ok := ParseQualifiedType(want);
      }
    }

    /** The types that begin with a D, save those of two letters. */
    method ParseDType(ghost want: Goal<Type> := Any) returns (ok: bool)
      requires Valid() && Look(0) == 'D'
      modifies this
      ensures Valid() && Went(ok, old(first), first, old(names), names) && tryToParseTemplateArgs == old(tryToParseTemplateArgs)
      ensures want.Read? && (want.what.PackOf? || want.what.Function?) && old(tryToParseTemplateArgs) && TypeAt(input, old(first), old(subs), want.what) ==>
                ok && first == old(first) + |WriteType(want.what)| && subs == old(subs) + Adds(want.what) - 1 && asked == old(asked)
      decreases |input| - first, 6
    {
      hide TypeAt, WriteType, Adds, QualLength, Here, FunctionRest;
      ghost var goal := want.Read? && want.what.PackOf? && tryToParseTemplateArgs && TypeAt(input, first, subs, want.what);
      if goal { PackCase(input, first, subs, want.what); }
      if want.Read? && want.what.Function? && tryToParseTemplateArgs && TypeAt(input, first, subs, want.what) {
        FunctionCase(input, first, subs, want.what);
        NoQualifiers(input, first);
      }
      var d := Look(1);
      if d in "tT" { ok := ParseDecltype(); }
      else if d == 'v' { ok := ParseVectorType(); }
      else if d == 'p' {
        Skip(2);
        ok := ParseType(if goal then Read(want.what.inner) else Any);
      }
      else if d in "oOwx" { ok := ParseFunctionType(want); }
      else { ok := false; }
    }

    // -------------------------------------------------------------- expressions

    /** Expressions up to `stop`. */
    method ParseExprs(stop: char) returns (ok: bool)
      requires Valid()
      modifies this
      ensures Valid() && Went(ok, old(first), first, old(names), names) && tryToParseTemplateArgs == old(tryToParseTemplateArgs)
      decreases |input| - first, 9
    {
      var begin := names;
      var done := ConsumeIf(stop);
      while !done
        invariant old(first) <= first <= |input| && begin == old(names) <= names && (done ==> old(first) < first)
        invariant tryToParseTemplateArgs == old(tryToParseTemplateArgs)
        decreases |input| - first
      {
        ok := ParseExpr();
        if !ok { return; }
        PushName();
        done := ConsumeIf(stop);
      }
      PopTrailingNodeArray(begin);
      ok := true;
    }

    /** `count` expressions in a row. */
    method ParseOperands(count: nat) returns (ok: bool)
      requires Valid() && count > 0
      modifies this
      ensures Valid() && Went(ok, old(first), first, old(names), names) && tryToParseTemplateArgs == old(tryToParseTemplateArgs)
      decreases |input| - first, 9
    {
      var i := 0;
      while i < count
        invariant 0 <= i <= count && old(first) + i <= first <= |input| && names == old(names)
        invariant tryToParseTemplateArgs == old(tryToParseTemplateArgs)
      {
        ok := ParseExpr();
        if !ok { return; }
        i := i + 1;
      }
      ok := true;
    }

    method ParseIntegerLiteral(ghost negative: bool := false, ghost want: Goal<string> := Any) returns (ok: bool)
      requires Valid()
      modifies this`first
      ensures Valid() && old(first) <= first && (ok ==> old(first) < first)
      ensures want.Read? && want.what != "" && AllDigits(want.what) && Here(input, old(first), (if negative then "n" else "") + (want.what + "E")) ==>
                ok && first == old(first) + (if negative then 1 else 0) + |want.what| + 1
    {
      hide AllDigits, Here;
      ok := ParseNumber(true);
      if want.Read? && want.what != "" && AllDigits(want.what) && Here(input, old(first), (if negative then "n" else "") + (want.what + "E")) {
        NumberCase(input, old(first), negative, want.what, first);
      }
      if ok { ok := ConsumeIf('E'); }
    }

    method ParseFloatingLiteral(size: nat) returns (ok: bool)
      requires Valid()
      modifies this`first
      ensures Valid() && old(first) <= first && (ok ==> old(first) < first)
    {
      if Left() <= size { return false; }
      var i := first;
      while i < first + size
        invariant first <= i <= first + size
      {
        if !IsHexDigit(input[i]) { return false; }
        i := i + 1;
      }
      first := first + size;
      ok := ConsumeIf('E');
    }

    method ParseFunctionParam() returns (ok: bool)
      requires Valid()
      modifies this`first
      ensures Valid() && Went(ok, old(first), first, old(names), names)
    {
      ok := ConsumeWord("fp");
      if !ok {
        ok := ConsumeWord("fL");
        if !ok { return; }
        ok := ParseNumber(false);
        if !ok { return; }
        ok := ConsumeIf('p');
        if !ok { return; }
      }
      var _ := ParseCVQualifiers();
      var _ := ParseNumber(false);
      ok := ConsumeIf('_');
    }

    method ParseNewExpr() returns (ok: bool)
      requires Valid()
      modifies this
      ensures Valid() && Went(ok, old(first), first, old(names), names) && tryToParseTemplateArgs == old(tryToParseTemplateArgs)
      decreases |input| - first, 2
    {
      var _ := ConsumeWord("gs");
      ok := ConsumeWord("nw");
      if !ok { ok := ConsumeWord("na"); }
      if !ok { return; }
      ok := ParseExprs('_');
      if !ok { return; }
      ok := ParseType();
      if !ok { return; }
      var init := ConsumeWord("pi");
      if init { ok := ParseExprs('E'); } else { ok := ConsumeIf('E'); }
    }

    method ParseConversionExpr() returns (ok: bool)
      requires Valid()
      modifies this
      ensures Valid() && Went(ok, old(first), first, old(names), names) && tryToParseTemplateArgs == old(tryToParseTemplateArgs)
      decreases |input| - first, 2
    {
      ok := ConsumeWord("cv");
      if !ok { return; }
      var saved := tryToParseTemplateArgs;
      tryToParseTemplateArgs := false;
      ok := ParseType();
      tryToParseTemplateArgs := saved;
      if !ok { return; }
      var list := ConsumeIf('_');
      if list { ok := ParseExprs('E'); } else { ok := ParseExpr(); }
    }

    /** Reads every number and truth value that stands here. */
    method ParseExprPrimary(ghost want: Goal<Type> := Any) returns (ok: bool)
      requires Valid()
      modifies this
      ensures Valid() && Went(ok, old(first), first, old(names), names) && tryToParseTemplateArgs == old(tryToParseTemplateArgs)
      ensures want.Read? && (want.what.Number? || want.what.Truth?) && ArgAt(input, old(first), old(subs), want.what) ==>
                ok && first == old(first) + |WriteType(want.what)| && subs == old(subs) && asked == old(asked)
      decreases |input| - first, 2
    {
      hide ArgAt, WriteType, AllDigits, Here;
      ghost var goal := want.Read? && (want.what.Number? || want.what.Truth?) && ArgAt(input, first, subs, want.what);
      if goal { LiteralCase(input, first, subs, want.what); }
      ok := ConsumeIf('L');
      if !ok { return; }
      var c := Look(0);
      if c in "wcahstijlmxyno" {
        Skip(1);
        ok := ParseIntegerLiteral(goal && want.what.Number? && want.what.negative, if goal && want.what.Number? then Read(want.what.digits) else Any);
      } else if c == 'b' {
        ok := ConsumeWord("b0E");
        if !ok { ok := ConsumeWord("b1E"); }
      } else if c in "fde" {
        Skip(1);
        ok := ParseFloatingLiteral(if c == 'f' then 8 else if c == 'd' then 16 else 20);
      } else if c == '_' {
        ok := ConsumeWord("_Z");
        if ok { ok := ParseEncoding(); }
        if ok { ok := ConsumeIf('E'); }
      } else if c == 'A' {
        ok := ParseType();
        if ok { ok := ConsumeIf('E'); }
      } else if c == 'D' {
        ok := ConsumeWord("DnE");
      } else if c == 'T' {
        ok := false;
      } else if c == 'U' {
        if Look(1) != 'l' { return false; }
        ok := ParseUnnamedTypeName(null);
        if ok { ok := ConsumeIf('E'); }
      } else {
        ok := ParseType();
        if ok { ok := ParseNumber(false); }
        if ok { ok := ConsumeIf('E'); }
      }
    }

    method ParseBracedExpr() returns (ok: bool)
      requires Valid()
      modifies this
      ensures Valid() && Went(ok, old(first), first, old(names), names) && tryToParseTemplateArgs == old(tryToParseTemplateArgs)
      decreases |input| - first, 9
    {
      if Look(0) == 'd' && Look(1) == 'i' {
        Skip(2);
        ok := ParseSourceName();
        if ok { ok := ParseBracedExpr(); }
      } else if Look(0) == 'd' && Look(1) in "xX" {
        var count := if Look(1) == 'x' then 1 else 2;
        Skip(2);
        ok := ParseOperands(count);
        if ok { ok := ParseBracedExpr(); }
      } else {
        ok := ParseExpr();
      }
    }

    /** Braced expressions up to an `E`. */
    method ParseBracedExprs() returns (ok: bool)
      requires Valid()
      modifies this
      ensures Valid() && Went(ok, old(first), first, old(names), names) && tryToParseTemplateArgs == old(tryToParseTemplateArgs)
      decreases |input| - first, 10
    {
      var begin := names;
      var done := ConsumeIf('E');
      while !done
        invariant old(first) <= first <= |input| && begin == old(names) <= names && (done ==> old(first) < first)
        invariant tryToParseTemplateArgs == old(tryToParseTemplateArgs)
        decreases |input| - first
      {
        ok := ParseBracedExpr();
        if !ok { return; }
        PushName();
        done := ConsumeIf('E');
      }
      PopTrailingNodeArray(begin);
      ok := true;
    }

    method ParseFoldExpr() returns (ok: bool)
      requires Valid()
      modifies this
      ensures Valid() && Went(ok, old(first), first, old(names), names) && tryToParseTemplateArgs == old(tryToParseTemplateArgs)
      decreases |input| - first, 2
    {
      ok := ConsumeIf('f');
      if !ok { return; }
      var kind := Look(0);
      if kind !in "lLrR" { return false; }
      Skip(1);
      if !FoldOperator(Look(0), Look(1)) { return false; }
      Skip(2);
      ok := ParseOperands(if kind in "LR" then 2 else 1);
    }

    method ParseExpr() returns (ok: bool)
      requires Valid()
      modifies this
      ensures Valid() && Went(ok, old(first), first, old(names), names) && tryToParseTemplateArgs == old(tryToParseTemplateArgs)
      decreases |input| - first, 8
    {
      var _ := ConsumeWord("gs");
      if Left() < 2 { return false; }
      var c, d := Look(0), Look(1);
      if c == 'L' { ok := ParseExprPrimary(); return; }
      if c == 'T' { ok := ParseTemplateParam(); return; }
      if c == 'f' {
        if d == 'p' || (d == 'L' && IsDigit(Look(2))) { ok := ParseFunctionParam(); } else { ok := ParseFoldExpr(); }
        return;
      }
      if '1' <= c <= '9' { ok := ParseUnresolvedName(); return; }
      if c == 'u' {
        ok := ConsumeWord("u8__uuidoft");
        if ok { ok := ParseType(); return; }
        ok := ConsumeWord("u8__uuidofz");
        if ok { ok := ParseExpr(); }
        return;
      }
      ok := ParseOperation(FormOf(c, d));
    }

    /** The expressions that begin with two letters. */
    method ParseOperation(form: Form) returns (ok: bool)
      requires Valid() && Left() >= 2 && (form.Exprs? ==> form.count > 0)
      modifies this
      ensures Valid() && Went(ok, old(first), first, old(names), names) && tryToParseTemplateArgs == old(tryToParseTemplateArgs)
      decreases |input| - first, 7
    {
      match form
      case Nothing => ok := false;
      case Exprs(count) =>
        Skip(2);
        ok := ParseOperands(count);
      case OneType =>
        Skip(2);
        ok := ParseType();
      case TypeThenExpr =>
        Skip(2);
        ok := ParseType();
        if ok { ok := ParseExpr(); }
      case Call =>
        Skip(2);
        ok := ParseExpr();
        if ok { ok := ParseExprs('E'); }
      case Conversion => ok := ParseConversionExpr();
      case Unresolved => ok := ParseUnresolvedName();
      case Step =>
        Skip(2);
        var _ := ConsumeIf('_');
        ok := ParseExpr();
      case New => ok := ParseNewExpr();
      case InitList =>
        Skip(2);
        ok := ParseBracedExprs();
      case TypedInitList =>
        Skip(2);
        ok := ParseType();
        if ok { ok := ParseBracedExprs(); }
      case SizeofPack =>
        Skip(2);
        if Look(0) == 'T' { ok := ParseTemplateParam(); }
        else if Look(0) == 'f' { ok := ParseFunctionParam(); }
        else { ok := false; }
      case SizeofArgs =>
        Skip(2);
        ok := ParseTemplateArgList(false);
      case Rethrow =>
        Skip(2);
        ok := true;
    }

    // -------------------------------------------------------------- encodings

    /** Says whether the offset was complete. */
    method ParseCallOffset() returns (ok: bool)
      requires Valid()
      modifies this`first
      ensures Valid() && old(first) <= first
    {
      ok := ConsumeIf('h');
      if ok {
        ok := ParseNumber(true);
        if ok { ok := ConsumeIf('_'); }
        return;
      }
      ok := ConsumeIf('v');
      if ok { ok := ParseNumber(true); }
      if ok { ok := ConsumeIf('_'); }
      if ok { ok := ParseNumber(true); }
      if ok { ok := ConsumeIf('_'); }
    }

    method ParseSpecialName(ghost want: Goal<Encoding> := Any) returns (ok: bool)
      requires Valid()
      modifies this
      ensures Valid() && Went(ok, old(first), first, old(names), names) && tryToParseTemplateArgs == old(tryToParseTemplateArgs)
      ensures want.Read? && (want.what.About? || want.what.AboutName?) && old(tryToParseTemplateArgs)
              && EncodingAt(input, old(first), old(subs), want.what) ==>
                ok && first == old(first) + |WriteEncoding(want.what)|
      decreases |input| - first, 2
    {
      hide EncodingAt, WriteEncoding, TypeAt, NameAt, WriteType, WriteName, Adds, NameAdds;
      ghost var goal := want.Read? && (want.what.About? || want.what.AboutName?) && tryToParseTemplateArgs && EncodingAt(input, first, subs, want.what);
      ghost var ty, name := Any, Any;
      if goal {
        if want.what.About? {
          AboutCase(input, first, subs, want.what);
          ty := Read(want.what.t);
        } else {
          AboutNameCase(input, first, subs, want.what);
          name := Read(want.what.name);
        }
      }
      var c, d := Look(0), Look(1);
      if c == 'T' {
        if d in "VTIS" {
          Skip(2);
          ok := ParseType(ty);
        } else if d == 'c' {
          Skip(2);
          ok := ParseCallOffset();
          if ok { ok := ParseCallOffset(); }
          if ok { ok := ParseEncoding(); }
        } else if d == 'C' {
          Skip(2);
          ok := ParseType();
          if ok { ok := ParseNumber(true); }
          if ok { ok := ConsumeIf('_'); }
          if ok { ok := ParseType(); }
        } else if d in "WH" {
          Skip(2);
          ok := ParseName(null, name);
        } else {
          Skip(1);
          ok := ParseCallOffset();
          if ok { ok := ParseEncoding(); }
        }
      } else if c == 'G' && d == 'V' {
        Skip(2);
        ok := ParseName(null, name);
      } else if c == 'G' && d == 'R' {
        Skip(2);
        ok := ParseName(null);
        if !ok { return; }
        var parsedSeqId, id := ParseSeqId();
        var end := ConsumeIf('_');
        ok := end || !parsedSeqId;
      } else {
        ok := false;
      }
    }

    predicate IsEndOfEncoding()
      reads this
    {
      Left() == 0 || Look(0) in "E._"
    }

    /**
      Reads every encoding that stands here.  The forward references to template parameters are resolved behind the
      name; where there are none, as no parameter was looked up, that cannot fail.
     */
    method ParseEncoding(ghost want: Goal<Encoding> := Any) returns (ok: bool)
      requires Valid()
      modifies this
      ensures Valid() && Went(ok, old(first), first, old(names), names) && tryToParseTemplateArgs == old(tryToParseTemplateArgs)
      ensures want.Read? && old(tryToParseTemplateArgs) && EncodingAt(input, old(first), old(subs), want.what) ==>
                ok && first == old(first) + |WriteEncoding(want.what)|
      decreases |input| - first, 6
    {
      hide EncodingAt, EncodingFits, NameAt, TypeAt, TypesAt, WriteEncoding, WriteName, WriteType, WriteTypes, WriteParams, FuncRest, Here, TypesFit, ArgsFit, NameAdds,
           Adds, TypesAdd, CanBegin, EndsAt;
      ghost var goal := want.Read? && tryToParseTemplateArgs && EncodingAt(input, first, subs, want.what);
      ghost var at, before := first, subs;
      if goal {
        if want.what.Data? || want.what.Func? {
          EncodingCase(input, first, subs, want.what);
          NameCase(input, first, subs, want.what.name);
        } else if want.what.About? {
          AboutCase(input, first, subs, want.what);
        } else {
          AboutNameCase(input, first, subs, want.what);
        }
      }
      if Look(0) in "GT" { ok := ParseSpecialName(want); return; }
      var nameInfo := new NameState();
      var askedBefore := asked;
      ok := ParseName(nameInfo, if goal then Read(want.what.name) else Any);
      if !ok { return; }
      if asked != askedBefore {
        ok := Ask();
        if !ok { return; }
      }
      EndIs(input, first);
      if IsEndOfEncoding() { return true; }
      ok := ParseFunction(!nameInfo.ctorDtorConversion && nameInfo.endsWithTemplateArgs, at, before, if goal then want else Any);
    }

    /** What an encoding says behind the name of a function; `returned` says that it names the return type. */
    method ParseFunction(returned: bool, ghost at: nat, ghost before: nat, ghost want: Goal<Encoding> := Any) returns (ok: bool)
      requires Valid()
      modifies this
      ensures Valid() && Went(ok, old(first), first, old(names), names) && tryToParseTemplateArgs == old(tryToParseTemplateArgs)
      ensures want.Read? && want.what.Func? && old(tryToParseTemplateArgs) && EncodingAt(input, at, before, want.what)
              && old(first) == at + |WriteName(want.what.name)| && old(subs) == before + NameAdds(want.what.name)
              && returned == (EndsWithArgs(want.what.name) && !HasStructor(want.what.name)) ==>
                ok && first == at + |WriteEncoding(want.what)|
      decreases |input| - first, 11
    {
      hide EncodingAt, TypeAt, TypesAt, WriteEncoding, WriteName, WriteType, WriteTypes, Here, NameAdds, Adds, TypesAdd, EndsAt, EndsWithArgs, HasStructor;
      ghost var goal := want.Read? && want.what.Func? && tryToParseTemplateArgs && EncodingAt(input, at, before, want.what)
                        && first == at + |WriteName(want.what.name)| && subs == before + NameAdds(want.what.name)
                        && returned == (EndsWithArgs(want.what.name) && !HasStructor(want.what.name));
      if goal { FuncFacts(input, at, before, want.what); }
      var enableIf := ConsumeWord("Ua9enable_ifI");
      if enableIf {
        ok := ParseTemplateArgList(false);
        if !ok { return; }
      }
      if returned {
        ok := ParseType(if goal then Read(want.what.ret) else Any);
        if !ok { return; }
      }
      var none := ConsumeIf('v');
      if none { return true; }
      ok := ParseSignature(if goal then Read(want.what.params) else Any);
    }

    /** One type or more, up to the end of the encoding. */
    method ParseSignature(ghost want: Goal<Types> := Any) returns (ok: bool)
      requires Valid()
      modifies this
      ensures Valid() && Went(ok, old(first), first, old(names), names) && tryToParseTemplateArgs == old(tryToParseTemplateArgs)
      ensures want.Read? && want.what.Types? && old(tryToParseTemplateArgs) && TypesAt(input, old(first), old(subs), want.what)
              && EndsAt(input, old(first) + |WriteTypes(want.what)|) ==>
                ok && first == old(first) + |WriteTypes(want.what)| && subs == old(subs) + TypesAdd(want.what) && asked == old(asked)
      decreases |input| - first, 9
    {
      hide TypesAt, TypeAt, TypesFit, ArgsFit, WriteTypes, WriteType, Here, TypesAdd, Adds, CanBegin, EndsAt;
      ghost var goal := want.Read? && want.what.Types? && tryToParseTemplateArgs && TypesAt(input, first, subs, want.what)
                        && EndsAt(input, first + |WriteTypes(want.what)|);
      ghost var left, end, total := NoTypes, first, subs;
      if goal { left, end, total := want.what, first + |WriteTypes(want.what)|, subs + TypesAdd(want.what); }
      var begin := names;
      var done := false;
      while !done
        invariant old(first) <= first <= |input| && begin == old(names) <= names && (done ==> old(first) < first)
        invariant tryToParseTemplateArgs == old(tryToParseTemplateArgs)
        invariant goal ==> subs + TypesAdd(left) == total && asked == old(asked) && TypesAt(input, first, subs, left)
        invariant goal ==> first + |WriteTypes(left)| == end && (done <==> left.NoTypes?)
        decreases |input| - first, !done
      {
        if goal { TypesStep(input, first, subs, left); }
        ok := ParseType(if goal then Read(left.head) else Any);
        if !ok { return; }
        PushName();
        if goal {
          left := left.tail;
          SignatureSees(input, first, subs, left, end);
        }
        EndIs(input, first);
        done := IsEndOfEncoding();
      }
      if goal { NoMoreTypes(left); }
      PopTrailingNodeArray(begin);
      ok := true;
    }

    // -------------------------------------------------------------- substitutions and templates

    /** Reads every substitution that stands here. */
    method ParseSubstitution(ghost want: Goal<Sub> := Any) returns (ok: bool)
      requires Valid()
      modifies this`first, this`subs
      ensures Valid() && Went(ok, old(first), first, old(names), names)
      ensures want.Read? && SubAt(input, old(first), old(subs), want.what) ==>
                ok && first == old(first) + |WriteSub(want.what)| && subs == old(subs)
    {
      hide SubAt, WriteSub, Here, AllSeqDigits, SeqNumberOf;
      ghost var goal := want.Read? && SubAt(input, first, subs, want.what);
      if goal { SubCase(input, first, subs, want.what); }
      ok := ConsumeIf('S');
      if !ok { return; }
      if IsLower(Look(0)) {
        if Look(0) !in "absiod" { return false; }
        Skip(1);
        var tagged := Look(0) == 'B';
        ok := ParseAbiTags();
        if tagged { subs := subs + 1; }
        return;
      }
      var zero := ConsumeIf('_');
      if zero { return subs > 0; }
      var id;
      ok, id := ParseSeqId();
      if goal {
        SubNumber(input, old(first), subs, want.what);
        SeqRunEnds(input, old(first) + 1, want.what.digits, first);
      }
      if !ok { return; }
      ok := ConsumeIf('_');
      if ok { ok := (id + 1) % SizeSpan < subs; }
    }

    /** Whether the parameter that is named exists is a question to the tables. */
    method ParseTemplateParam() returns (ok: bool)
      requires Valid()
      modifies this`first, this`asked
      ensures Valid() && Went(ok, old(first), first, old(names), names)
    {
      ok := ConsumeIf('T');
      if !ok { return; }
      var value;
      var level := ConsumeIf('L');
      if level {
        ok, value := ParsePositiveInteger();
        if !ok { return; }
        ok := ConsumeIf('_');
        if !ok { return; }
      }
      var zero := ConsumeIf('_');
      if !zero {
        ok, value := ParsePositiveInteger();
        if !ok { return; }
        ok := ConsumeIf('_');
        if !ok { return; }
      }
      ok := Ask();
    }

    method ParseTemplateParamDecl() returns (ok: bool)
      requires Valid()
      modifies this
      ensures Valid() && Went(ok, old(first), first, old(names), names) && tryToParseTemplateArgs == old(tryToParseTemplateArgs)
      decreases |input| - first, 2
    {
      ok := ConsumeWord("Ty");
      if ok { return; }
      ok := ConsumeWord("Tn");
      if ok { ok := ParseType(); return; }
      ok := ConsumeWord("Tt");
      if ok {
        var begin := names;
        var done := ConsumeIf('E');
        while !done
          invariant old(first) < first <= |input| && begin == old(names) <= names
          invariant tryToParseTemplateArgs == old(tryToParseTemplateArgs)
          decreases |input| - first
        {
          ok := ParseTemplateParamDecl();
          if !ok { return; }
          PushName();
          done := ConsumeIf('E');
        }
        PopTrailingNodeArray(begin);
        return true;
      }
      ok := ConsumeWord("Tp");
      if ok { ok := ParseTemplateParamDecl(); }
    }

    method ParseTemplateArg(ghost want: Goal<Type> := Any) returns (ok: bool)
      requires Valid()
      modifies this
      ensures Valid() && Went(ok, old(first), first, old(names), names) && tryToParseTemplateArgs == old(tryToParseTemplateArgs)
      ensures want.Read? && old(tryToParseTemplateArgs) && ArgAt(input, old(first), old(subs), want.what) ==>
                ok && first == old(first) + |WriteType(want.what)| && subs == old(subs) + Adds(want.what) && asked == old(asked)
      decreases |input| - first, 9
    {
      hide ArgAt, TypeAt, ArgsFit, WriteType, WriteTypes, Adds, TypesAdd, Here;
      ghost var goal := want.Read? && tryToParseTemplateArgs && ArgAt(input, first, subs, want.what);
      if goal { ArgCase(input, first, subs, want.what); }
      if Look(0) == 'X' {
        Skip(1);
        ok := ParseExpr();
        if ok { ok := ConsumeIf('E'); }
      } else if Look(0) == 'J' {
        Skip(1);
        ok := ParseTemplateArgList(false, if goal && want.what.ArgPack? then Read(want.what.args) else Any);
      } else if Look(0) == 'L' && Look(1) == 'Z' {
        Skip(2);
        ok := ParseEncoding();
        if ok { ok := ConsumeIf('E'); }
      } else if Look(0) == 'L' {
        ok := ParseExprPrimary(want);
      } else {
        ok := ParseType(want);
      }
    }

    /** Template arguments up to an `E`. */
    method ParseTemplateArgList(tagTemplates: bool, ghost want: Goal<Types> := Any) returns (ok: bool)
      requires Valid()
      modifies this
      ensures Valid() && Went(ok, old(first), first, old(names), names) && tryToParseTemplateArgs == old(tryToParseTemplateArgs)
      ensures want.Read? && old(tryToParseTemplateArgs) && ArgsFit(want.what, old(subs)) && Here(input, old(first), WriteTypes(want.what) + "E") ==>
                ok && first == old(first) + |WriteTypes(want.what)| + 1 && subs == old(subs) + TypesAdd(want.what) && asked == old(asked)
      decreases |input| - first, 10
    {
      hide ArgsListAt, ArgAt, ArgsFit, WriteTypes, WriteType, Here, TypesAdd, Adds, CanBegin;
      ghost var goal := want.Read? && tryToParseTemplateArgs && ArgsFit(want.what, subs) && Here(input, first, WriteTypes(want.what) + "E");
      ghost var left, end, total := NoTypes, first, subs;
      if goal {
        left, end, total := want.what, first + |WriteTypes(want.what)|, subs + TypesAdd(want.what);
        ListIsClosed(input, first, subs, left);
        ListSeesEnd(input, first, subs, left);
      }
      var begin := names;
      var done := ConsumeIf('E');
      while !done
        invariant old(first) <= first <= |input| && begin == old(names) <= names && (done ==> old(first) < first)
        invariant tryToParseTemplateArgs == old(tryToParseTemplateArgs)
        invariant goal ==> subs + TypesAdd(left) == total && asked == old(asked)
        invariant goal && done ==> left.NoTypes? && first == end + 1
        invariant goal && !done ==> left.Types? && ArgsListAt(input, first, subs, left) && first + |WriteTypes(left)| == end
        decreases |input| - first
      {
        if goal { ArgsStep(input, first, subs, left); }
        ok := ParseTemplateArg(if goal then Read(left.head) else Any);
        if !ok { return; }
        PushName();
        if goal {
          left := left.tail;
          ListSeesEnd(input, first, subs, left);
        }
        done := ConsumeIf('E');
      }
      if goal { NoMoreTypes(left); }
      PopTrailingNodeArray(begin);
      ok := true;
    }

    method ParseTemplateArgs(tagTemplates: bool, ghost want: Goal<Types> := Any) returns (ok: bool)
      requires Valid()
      modifies this
      ensures Valid() && Went(ok, old(first), first, old(names), names) && tryToParseTemplateArgs == old(tryToParseTemplateArgs)
      ensures want.Read? && old(tryToParseTemplateArgs) && ArgsAt(input, old(first), old(subs), want.what) ==>
                && ok && first == old(first) + |"I" + (WriteTypes(want.what) + "E")|
                && subs == old(subs) + TypesAdd(want.what) && asked == old(asked)
      decreases |input| - first, 2
    {
      hide ArgsAt, ArgsFit, WriteTypes, Here, TypesAdd;
      if want.Read? && ArgsAt(input, first, subs, want.what) { ArgsCase(input, first, subs, want.what); }
      ok := ConsumeIf('I');
      if ok { ok := ParseTemplateArgList(tagTemplates, want); }
    }

    // -------------------------------------------------------------- the whole name

    /**
      Comes to an end on every string; on success all of it was read and no name is left on the stack.  Every encoding
      written behind `_Z` or `__Z`, with a suffix behind a dot or none, is accepted, and every type is.
     */
    method Parse(ghost want: Goal<Encoding> := Any, ghost alone: Goal<Type> := Any) returns (ok: bool)
      requires Valid() && first == 0 && names == 0
      modifies this
      ensures Valid()
      ensures ok ==> first == |input| && names == 0 && |input| > 0
      ensures want.Read? && old(tryToParseTemplateArgs && subs == 0) && Mangles(input, want.what) ==> ok
      ensures alone.Read? && old(tryToParseTemplateArgs && subs == 0) && TypeFits(alone.what, 0) && input == WriteType(alone.what) ==> ok
    {
      hide Mangles, EncodingAt, WriteEncoding, WriteType, TypeFits, TypeAt, Here, EndsAt;
      if want.Read? && subs == 0 && Mangles(input, want.what) { MangledSees(input, want.what); }
      if alone.Read? && subs == 0 && TypeFits(alone.what, 0) && input == WriteType(alone.what) { TypeSees(input, alone.what); }
      var mangled := ConsumeWord("_Z");
      if !mangled { mangled := ConsumeWord("__Z"); }
      if mangled {
        ok := ParseEncoding(want);
        if !ok { return; }
        if Look(0) == '.' { first := |input|; }
        ok := Left() == 0;
        return;
      }
      var block := ConsumeWord("___Z");
      if !block { block := ConsumeWord("____Z"); }
      if block {
        ok := ParseEncoding();
        if !ok { return; }
        ok := ConsumeWord("_block_invoke");
        if !ok { return; }
        var requireNumber := ConsumeIf('_');
        var number := ParseNumber(false);
        if !number && requireNumber { return false; }
        if Look(0) == '.' { first := |input|; }
        ok := Left() == 0;
        return;
      }
      ok := ParseType(alone);
      if Left() != 0 { return false; }
    }
  }

  // ---------------------------------------------------------------- what is accepted

  /** For every encoding there is, whatever the tables answer and whatever stands behind a dot. */
  method AcceptsEncoding(e: Encoding, suffix: string, lookups: nat -> bool) returns (ok: bool)
    requires EncodingFits(e, 0) && (suffix == "" || suffix[0] == '.')
    ensures ok
  {
    hide EncodingFits, WriteEncoding;
    var name := "_Z" + WriteEncoding(e);
    assert Suffixed(name + suffix, name);
    var parser := new Parser(name + suffix, lookups);
    ok := parser.Parse(Read(e));
  }

  /** ... and every type by itself. */
  method AcceptsType(t: Type, lookups: nat -> bool) returns (ok: bool)
    requires TypeFits(t, 0)
    ensures ok
  {
    hide TypeFits, WriteType;
    var parser := new Parser(WriteType(t), lookups);
    ok := parser.Parse(Any, Read(t));
  }

  /** A function f without parameters. */
  lemma {:induction false} NoParameters()
    ensures var e := Func(Plain(false, Id("f", NoTags)), false, Builtin('v'), NoTypes); EncodingFits(e, 0) && WriteEncoding(e) == "1fv"
  {
    assert Decimal(1) == "1";
    assert SourceName("f") == "1f";
  }
}
