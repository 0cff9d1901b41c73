/**
  Mangled names as they are built: types, names and encodings, and how each is written down.  The parser is to
  read every one of them whole.

  Template parameters, expressions, local and unnamed names are not among them.
 */
module DemangleManglings {

  datatype Qualifiers = Qualifiers(r: bool, v: bool, k: bool)

  datatype RefQualifier = NoRef | LRef | RRef

  /** noexcept, and transaction-safe. */
  datatype Marks = Marks(noThrow: bool, safe: bool)

  /** S_ and S0_, S1_, ...; Sa, Sb, Ss, Si, So and Sd. */
  datatype Sub = Std(c: char) | First | Numbered(digits: string)

  datatype Type =
    | Builtin(c: char)
    | Extended(d: char)                                    // Dd, De, ...
    | Vendor(id: string)                                   // u <name>
    | Class(name: Name)
    | Known(sub: Sub)
    | Special(sub: Sub, args: Types)                       // <substitution> I <types> E
    | Prefixed(c: char, inner: Type)                       // P, R, O, C, G
    | Qualified(quals: Qualifiers, inner: Type)
    | Function(quals: Qualifiers, marks: Marks, externC: bool, ret: Type, params: Types, ref: RefQualifier)
    | Array(bound: string, inner: Type)
    | Member(cls: Type, inner: Type)
    | PackOf(inner: Type)                                  // Dp <type>
    | Number(c: char, negative: bool, digits: string)      // L <type> <number> E, as a template argument
    | Truth(value: bool)                                   // Lb0E and Lb1E, likewise
    | ArgPack(args: Types)                                 // J <arguments> E, likewise

  datatype Types = NoTypes | Types(head: Type, tail: Types)

  datatype Part = Id(id: string, tags: Tags) | Operator(c: char, d: char, tags: Tags)

  /** ABI tags. */
  datatype Tags = NoTags | Tag(name: string, more: Tags)

  datatype Name =
    | Plain(std: bool, part: Part)
    | Template(std: bool, part: Part, args: Types)         // <name> I <types> E
    | Nested(quals: Qualifiers, ref: RefQualifier, std: bool, comps: Comps)

  datatype Comps = NoComps | Comps(head: Comp, tail: Comps)

  datatype Comp =
    | From(sub: Sub)
    | Named(part: Part)
    | Structor(kind: char, digit: char, tags: Tags)        // C1, D0, ...
    | Args(types: Types)

  datatype Encoding =
    | Data(name: Name)
    | Func(name: Name, returned: bool, ret: Type, params: Types)   // `ret` counts where `returned`
    | About(kind: char, t: Type)                                   // TV, TT, TI, TS: virtual tables and type information
    | AboutName(front: string, name: Name)                         // GV, TW, TH: guards and thread-local helpers

  /** What a sub-parser finds in front of it, if that is known. */
  datatype Goal<T> = Any | Read(what: T)

  // ---------------------------------------------------------------- characters and numbers

  const SizeSpan: nat := 0x1_0000_0000_0000_0000

  predicate IsDigit(c: char) { '0' <= c <= '9' }

  predicate IsUpper(c: char) { 'A' <= c <= 'Z' }

  function CharAt(s: string, i: nat): char { if i < |s| then s[i] else '\0' }

  predicate Here(s: string, at: nat, text: string) { at + |text| <= |s| && s[at..at + |text|] == text }

  function Decimal(n: nat): string {
    (if n < 10 then "" else Decimal(n / 10)) + [('0' as int + n % 10) as char]
  }

  /** The `size_t` that digits stand for. */
  function NumberOf(digits: string): nat {
    if digits == "" then 0 else (NumberOf(digits[..|digits| - 1]) * 10 + DigitValue(digits[|digits| - 1])) % SizeSpan
  }

  function DigitValue(c: char): nat { if IsDigit(c) then c as int - '0' as int else 0 }

  predicate AllDigits(s: string) { forall i :: 0 <= i < |s| ==> IsDigit(s[i]) }

  /** ... and in base 36, as sequence ids are. */
  function SeqNumberOf(digits: string): nat {
    if digits == "" then 0 else (SeqNumberOf(digits[..|digits| - 1]) * 36 + SeqDigitValue(digits[|digits| - 1])) % SizeSpan
  }

  function SeqDigitValue(c: char): nat {
    if IsDigit(c) then c as int - '0' as int else if IsUpper(c) then c as int - 'A' as int + 10 else 0
  }

  predicate AllSeqDigits(s: string) { forall i :: 0 <= i < |s| ==> IsDigit(s[i]) || IsUpper(s[i]) }

  // ---------------------------------------------------------------- how they are written

  function SourceName(id: string): string { Decimal(|id|) + id }

  function QualLetters(q: Qualifiers): string { (if q.r then "r" else "") + (if q.v then "V" else "") + (if q.k then "K" else "") }

  function RefLetter(r: RefQualifier): string { if r == LRef then "R" else if r == RRef then "O" else "" }

  function MarkLetters(m: Marks): string { (if m.noThrow then "Do" else "") + (if m.safe then "Dx" else "") }

  function WriteSub(s: Sub): string {
    match s
    case Std(c) => "S" + [c]
    case First => "S_"
    case Numbered(digits) => "S" + digits + "_"
  }

  function WriteType(t: Type): string {
    match t
    case Builtin(c) => [c]
    case Extended(d) => "D" + [d]
    case Vendor(id) => "u" + SourceName(id)
    case Class(name) => WriteName(name)
    case Known(sub) => WriteSub(sub)
    case Special(sub, args) => WriteSub(sub) + ("I" + (WriteTypes(args) + "E"))
    case Prefixed(c, inner) => [c] + WriteType(inner)
    case Qualified(quals, inner) => QualLetters(quals) + WriteType(inner)
    case Function(quals, marks, externC, ret, params, ref) =>
      QualLetters(quals)
      + (MarkLetters(marks) + ((if externC then "FY" else "F") + (WriteType(ret) + (WriteParams(params) + (RefLetter(ref) + "E")))))
    case Array(bound, inner) => "A" + (bound + ("_" + WriteType(inner)))
    case Member(cls, inner) => "M" + (WriteType(cls) + WriteType(inner))
    case PackOf(inner) => "Dp" + WriteType(inner)
    case Number(c, negative, digits) => "L" + ([c] + ((if negative then "n" else "") + (digits + "E")))
    case Truth(value) => "L" + if value then "b1E" else "b0E"
    case ArgPack(args) => "J" + (WriteTypes(args) + "E")
  }

  function WriteTypes(ts: Types): string
    decreases ts, 0
  {
    if ts.NoTypes? then "" else WriteType(ts.head) + WriteTypes(ts.tail)
  }

  /** No parameters are written as a lone `v`. */
  function WriteParams(ts: Types): string
    decreases ts, 1
  {
    if ts.NoTypes? then "v" else WriteTypes(ts)
  }

  function WritePart(p: Part): string {
    match p
    case Id(id, tags) => SourceName(id) + WriteTags(tags)
    case Operator(c, d, tags) => [c, d] + WriteTags(tags)
  }

  function WriteTags(tags: Tags): string { if tags.NoTags? then "" else "B" + (SourceName(tags.name) + WriteTags(tags.more)) }

  function WriteName(n: Name): string {
    match n
    case Plain(std, part) => (if std then "St" else "") + WritePart(part)
    case Template(std, part, args) => (if std then "St" else "") + (WritePart(part) + ("I" + (WriteTypes(args) + "E")))
    case Nested(quals, ref, std, comps) =>
      "N" + (QualLetters(quals) + (RefLetter(ref) + ((if std then "St" else "") + (WriteComps(comps) + "E"))))
  }

  function WriteComps(cs: Comps): string { if cs.NoComps? then "" else WriteComp(cs.head) + WriteComps(cs.tail) }

  function WriteComp(c: Comp): string {
    match c
    case From(sub) => WriteSub(sub)
    case Named(part) => WritePart(part)
    case Structor(kind, digit, tags) => [kind, digit] + WriteTags(tags)
    case Args(types) => "I" + (WriteTypes(types) + "E")
  }

  function WriteEncoding(e: Encoding): string {
    match e
    case Data(name) => WriteName(name)
    case Func(name, returned, ret, params) => WriteName(name) + ((if returned then WriteType(ret) else "") + WriteParams(params))
    case About(kind, t) => "T" + ([kind] + WriteType(t))
    case AboutName(front, name) => front + WriteName(name)
  }

  // ---------------------------------------------------------------- the substitutions they add

  function Adds(t: Type): int {
    match t
    case Builtin(_) => 0
    case Extended(_) => 0
    case Vendor(_) => 1
    case Class(name) => NameAdds(name) + 1
    case Known(_) => 0
    case Special(_, args) => TypesAdd(args) + 1
    case Prefixed(_, inner) => Adds(inner) + 1
    case Qualified(_, inner) => Adds(inner) + 1
    case Function(_, _, _, ret, params, _) => Adds(ret) + TypesAdd(params) + 1
    case Array(_, inner) => Adds(inner) + 1
    case Member(cls, inner) => Adds(cls) + Adds(inner) + 1
    case PackOf(inner) => Adds(inner) + 1
    case Number(_, _, _) => 0
    case Truth(_) => 0
    case ArgPack(args) => TypesAdd(args)
  }

  function TypesAdd(ts: Types): int { if ts.NoTypes? then 0 else Adds(ts.head) + TypesAdd(ts.tail) }

  /** Each part of a nested name adds one, and the last is taken back. */
  function NameAdds(n: Name): int {
    match n
    case Plain(_, _) => 0
    case Template(_, _, args) => 1 + TypesAdd(args)
    case Nested(_, _, _, comps) => CompsAdd(comps) - 1
  }

  function CompsAdd(cs: Comps): int { if cs.NoComps? then 0 else CompAdds(cs.head) + CompsAdd(cs.tail) }

  function CompAdds(c: Comp): int {
    match c
    case From(_) => 0
    case Named(_) => 1
    case Structor(_, _, _) => 1
    case Args(types) => TypesAdd(types) + 1
  }

  // ---------------------------------------------------------------- which of them are names

  /** An identifier; one that began with a digit would be read as part of its length. */
  predicate IsId(id: string) { id != "" && !IsDigit(id[0]) && |id| < SizeSpan }

  /** Every lower-case letter but five is a builtin type. */
  predicate IsBuiltin(c: char) { 'a' <= c <= 'z' && c != 'k' && c != 'p' && c != 'q' && c != 'r' && c != 'u' }

  predicate IsExtended(d: char) { d in "defhisuacn" }

  /** What the second letter of an operator name may be. */
  predicate SimpleOperator(c: char, d: char) {
    match c
    case 'a' => d in "adnNS"
    case 'c' => d in "lmo"
    case 'd' => d in "aelvV"
    case 'e' => d in "oOq"
    case 'g' => d in "et"
    case 'i' => d == 'x'
    case 'l' => d in "esSt"
    case 'm' => d in "iIlLm"
    case 'n' => d in "aegtw"
    case 'o' => d in "orR"
    case 'p' => d in "mlLpst"
    case 'q' => d == 'u'
    case 'r' => d in "mMsS"
    case 's' => d == 's'
    case _ => false
  }

  /** A substitution names one of the `subs` there are. */
  predicate SubFits(s: Sub, subs: int) {
    match s
    case Std(c) => c in "absiod"
    case First => subs > 0
    case Numbered(digits) => digits != "" && AllSeqDigits(digits) && (SeqNumberOf(digits) + 1) % SizeSpan < subs
  }

  predicate IsStructor(c: char, d: char) { (c == 'C' && d in "12345") || (c == 'D' && d in "01245") }

  predicate PartFits(p: Part) {
    match p
    case Id(id, tags) => IsId(id) && TagsFit(tags)
    case Operator(c, d, tags) => SimpleOperator(c, d) && TagsFit(tags)
  }

  predicate TagsFit(tags: Tags) { tags.Tag? ==> IsId(tags.name) && TagsFit(tags.more) }

  predicate TypeFits(t: Type, subs: int)
    decreases t, 0
  {
    match t
    case Builtin(c) => IsBuiltin(c)
    case Extended(d) => IsExtended(d)
    case Vendor(id) => IsId(id)
    case Class(name) => NameFits(name, subs) && (name.Nested? || name.part.Id?)
    case Known(sub) => SubFits(sub, subs)
    case Special(sub, args) => SubFits(sub, subs) && ArgsFit(args, subs)
    case Prefixed(c, inner) => c in "PROCG" && TypeFits(inner, subs)
    case Qualified(quals, inner) => (quals.r || quals.v || quals.k) && !inner.Qualified? && !inner.Function? && TypeFits(inner, subs)
    case Function(_, _, _, ret, params, _) => TypeFits(ret, subs) && TypesFit(params, subs + Adds(ret)) && NoVoid(params)
    case Array(bound, inner) => AllDigits(bound) && TypeFits(inner, subs)
    case Member(cls, inner) => TypeFits(cls, subs) && TypeFits(inner, subs + Adds(cls))
    case PackOf(inner) => TypeFits(inner, subs)
    case _ => false
  }

  /** What may be a template argument: a type, a number, a truth value or a pack of arguments. */
  predicate ArgFits(t: Type, subs: int)
    decreases t, 1
  {
    match t
    case Number(c, _, digits) => c in "wcahstijlmxyno" && digits != "" && AllDigits(digits)
    case Truth(_) => true
    case ArgPack(args) => ArgsFit(args, subs)
    case _ => TypeFits(t, subs)
  }

  predicate ArgsFit(ts: Types, subs: int)
    decreases ts
  {
    ts.NoTypes? || (ArgFits(ts.head, subs) && ArgsFit(ts.tail, subs + Adds(ts.head)))
  }

  predicate TypesFit(ts: Types, subs: int) { ts.NoTypes? || (TypeFits(ts.head, subs) && TypesFit(ts.tail, subs + Adds(ts.head))) }

  predicate NoVoid(ts: Types) { ts.NoTypes? || (ts.head != Builtin('v') && NoVoid(ts.tail)) }

  predicate NameFits(n: Name, subs: int) {
    match n
    case Plain(_, part) => PartFits(part)
    case Template(_, part, args) => PartFits(part) && ArgsFit(args, subs + 1)
    case Nested(_, _, std, comps) => comps.Comps? && CompsFit(comps, subs, std)
  }

  /** `before` says that some part stands in front. */
  predicate CompsFit(cs: Comps, subs: int, before: bool) {
    cs.Comps? ==>
      && CompFits(cs.head, subs, before) && (cs.head.From? ==> cs.tail.Comps?)
      && CompsFit(cs.tail, subs + CompAdds(cs.head), true)
  }

  predicate CompFits(c: Comp, subs: int, before: bool) {
    match c
    case From(sub) => !before && SubFits(sub, subs)
    case Named(part) => PartFits(part) && (part.Operator? ==> before)
    case Structor(kind, digit, tags) =>
      before && TagsFit(tags) && IsStructor(kind, digit)
    case Args(types) => before && ArgsFit(types, subs)
  }

  predicate EndsWithArgs(n: Name) {
    match n
    case Plain(_, _) => false
    case Template(_, _, _) => true
    case Nested(_, _, _, comps) => LastIsArgs(comps)
  }

  predicate LastIsArgs(cs: Comps) { cs.Comps? && if cs.tail.NoComps? then cs.head.Args? else LastIsArgs(cs.tail) }

  predicate HasStructor(n: Name) { n.Nested? && AnyStructor(n.comps) }

  predicate AnyStructor(cs: Comps) { cs.Comps? && (cs.head.Structor? || AnyStructor(cs.tail)) }

  /** Functions with template arguments name their return type, constructors and destructors never do. */
  predicate EncodingFits(e: Encoding, subs: int) {
    match e
    case Data(name) => NameFits(name, subs)
    case Func(name, returned, ret, params) =>
      && NameFits(name, subs) && returned == (EndsWithArgs(name) && !HasStructor(name))
      && (returned ==> TypeFits(ret, subs + NameAdds(name)))
      && TypesFit(params, subs + NameAdds(name) + if returned then Adds(ret) else 0) && NoVoid(params)
    case About(kind, t) => kind in "VTIS" && TypeFits(t, subs)
    case AboutName(front, name) => front in ["GV", "TW", "TH"] && NameFits(name, subs)
  }

  // ---------------------------------------------------------------- where they stand

  /** Nothing that template arguments or tags begin with. */
  predicate Loose(c: char) { c != 'I' && c != 'B' }

  /** A name goes on with template arguments or tags; so does a type that ends with one. */
  predicate Apart(t: Type, c: char) {
    match t
    case Class(name) => NameApart(name, c)
    case Known(_) => Loose(c)
    case Prefixed(_, inner) => Apart(inner, c)
    case Qualified(_, inner) => Apart(inner, c)
    case Array(_, inner) => Apart(inner, c)
    case Member(_, inner) => Apart(inner, c)
    case PackOf(inner) => Apart(inner, c)
    case _ => true
  }

  predicate NameApart(n: Name, c: char) { n.Plain? ==> Loose(c) }

  predicate TypeAt(s: string, at: nat, subs: int, t: Type) {
    TypeFits(t, subs) && Here(s, at, WriteType(t)) && Apart(t, CharAt(s, at + |WriteType(t)|))
  }

  predicate TypesAt(s: string, at: nat, subs: int, ts: Types) {
    TypesFit(ts, subs) && Here(s, at, WriteTypes(ts)) && Loose(CharAt(s, at + |WriteTypes(ts)|))
  }

  predicate NameAt(s: string, at: nat, subs: int, n: Name) {
    NameFits(n, subs) && Here(s, at, WriteName(n)) && NameApart(n, CharAt(s, at + |WriteName(n)|))
  }

  predicate PartAt(s: string, at: nat, p: Part) {
    PartFits(p) && Here(s, at, WritePart(p)) && CharAt(s, at + |WritePart(p)|) != 'B'
  }

  predicate TagsAt(s: string, at: nat, tags: Tags) {
    TagsFit(tags) && Here(s, at, WriteTags(tags)) && CharAt(s, at + |WriteTags(tags)|) != 'B'
  }

  predicate CompsAt(s: string, at: nat, subs: int, before: bool, cs: Comps) {
    CompsFit(cs, subs, before) && Here(s, at, WriteComps(cs)) && CharAt(s, at + |WriteComps(cs)|) == 'E'
  }

  predicate SubAt(s: string, at: nat, subs: int, sub: Sub) {
    SubFits(sub, subs) && Here(s, at, WriteSub(sub)) && CharAt(s, at + |WriteSub(sub)|) != 'B'
  }

  /** Nothing may stand behind an encoding but what ends one. */
  predicate EndsAt(s: string, at: nat) { at >= |s| || s[at] in "E._" }

  predicate EncodingAt(s: string, at: nat, subs: int, e: Encoding) {
    && EncodingFits(e, subs) && Here(s, at, WriteEncoding(e))
    && (!e.Func? || e.params.Types? ==> EndsAt(s, at + |WriteEncoding(e)|))
  }

  // ---------------------------------------------------------------- texts

  lemma {:induction false} Split(s: string, at: nat, a: string, b: string)
    ensures Here(s, at, a + b) <==> Here(s, at, a) && Here(s, at + |a|, b)
  {
    if Here(s, at, a + b) {
      assert s[at..at + |a + b|][..|a|] == s[at..at + |a|];
      assert s[at..at + |a + b|][|a|..] == s[at + |a|..at + |a| + |b|];
    }
    if Here(s, at, a) && Here(s, at + |a|, b) {
      assert s[at..at + |a + b|] == s[at..at + |a|] + s[at + |a|..at + |a| + |b|];
    }
  }

  lemma {:induction false} FirstTwo(s: string, at: nat, text: string)
    requires Here(s, at, text)
    ensures |text| >= 1 ==> at < |s| && CharAt(s, at) == text[0]
    ensures |text| >= 2 ==> at + 1 < |s| && CharAt(s, at + 1) == text[1]
  {
    if |text| >= 1 { assert s[at..at + |text|][0] == s[at]; }
    if |text| >= 2 { assert s[at..at + |text|][1] == s[at + 1]; }
  }

  lemma {:induction false} CharOf(s: string, at: nat, text: string, k: nat)
    requires Here(s, at, text) && k < |text|
    ensures CharAt(s, at + k) == text[k]
  {
    assert s[at..at + |text|][k] == s[at + k];
  }

  lemma {:induction false} DecimalReads(n: nat)
    ensures Decimal(n) != "" && AllDigits(Decimal(n)) && (n < SizeSpan ==> NumberOf(Decimal(n)) == n)
    ensures n > 0 ==> '1' <= Decimal(n)[0] <= '9'
  {
    hide NumberOf, AllDigits;
    var more := if n < 10 then "" else Decimal(n / 10);
    if n >= 10 {
      DecimalReads(n / 10);
    } else {
      NoDigits();
    }
    OneMoreDigit(more, n % 10);
    TenTimes(n);
  }

  lemma {:induction false} NoDigits()
    ensures AllDigits("") && NumberOf("") == 0
  {
  }

  lemma {:induction false} OneMoreDigit(more: string, k: nat)
    requires AllDigits(more) && k < 10
    ensures var d := ('0' as int + k) as char;
            && AllDigits(more + [d]) && NumberOf(more + [d]) == (NumberOf(more) * 10 + k) % SizeSpan
            && (k > 0 ==> '1' <= d <= '9')
  {
    var d := ('0' as int + k) as char;
    assert (more + [d])[..|more + [d]| - 1] == more;
  }

  lemma {:induction false} TenTimes(n: nat)
    ensures n / 10 * 10 + n % 10 == n && (n < SizeSpan ==> n % SizeSpan == n && n / 10 < SizeSpan)
  {
  }

  /** Reading all digits there are stops where the text goes on with something else. */
  lemma {:induction false} RunEnds(s: string, at: nat, digits: string, rest: string, end: nat)
    requires Here(s, at, digits + rest) && AllDigits(digits) && rest != "" && !IsDigit(rest[0])
    requires at <= end <= |s| && AllDigits(s[at..end]) && (end == |s| || !IsDigit(s[end]))
    ensures end == at + |digits| && s[at..end] == digits && Here(s, end, rest)
  {
    Split(s, at, digits, rest);
    FirstTwo(s, at + |digits|, rest);
    assert forall k :: at <= k < at + |digits| ==> s[k] == s[at..at + |digits|][k - at];
    assert forall k :: at <= k < end ==> s[k] == s[at..end][k - at];
  }

  /** A source name, once its length was read. */
  lemma {:induction false} SourceStands(s: string, at: nat, id: string, end: nat)
    requires IsId(id) && Here(s, at, SourceName(id))
    requires at <= end <= |s| && AllDigits(s[at..end]) && (end == |s| || !IsDigit(s[end]))
    ensures at < end && NumberOf(s[at..end]) == |id| && end + |id| == at + |SourceName(id)| <= |s|
  {
    DecimalReads(|id|);
    RunEnds(s, at, Decimal(|id|), id, end);
  }

  lemma {:induction false} IdIsNot(id: string)
    requires IsId(id)
    ensures |id| > 0
  {
  }

  lemma {:induction false} SourceHead(id: string)
    requires IsId(id)
    ensures |SourceName(id)| >= 2 && '1' <= SourceName(id)[0] <= '9'
  {
    DecimalReads(|id|);
  }

  /** The same for a sequence id, which an underscore ends. */
  lemma {:induction false} SeqRunEnds(s: string, at: nat, digits: string, end: nat)
    requires Here(s, at, digits + "_") && AllSeqDigits(digits)
    requires at <= end <= |s| && AllSeqDigits(s[at..end]) && (end == |s| || !(IsDigit(s[end]) || IsUpper(s[end])))
    ensures end == at + |digits| && s[at..end] == digits && CharAt(s, end) == '_'
  {
    Split(s, at, digits, "_");
    FirstTwo(s, at + |digits|, "_");
    assert forall k :: at <= k < at + |digits| ==> s[k] == s[at..at + |digits|][k - at];
    assert forall k :: at <= k < end ==> s[k] == s[at..end][k - at];
  }

  /** One character more. */
  lemma {:induction false} RunGrows(s: string, a: nat, b: nat)
    requires a < b <= |s|
    ensures s[a..b][..|s[a..b]| - 1] == s[a..b - 1] && s[a..b][|s[a..b]| - 1] == s[b - 1] && |s[a..b]| == b - a
  {
  }

  // ---------------------------------------------------------------- first characters

  /** No type begins with these. */
  predicate CanBegin(c: char) {
    c != 'E' && c != '.' && c != '_' && c != 'B' && c != 'I' && c != 'X' && c != 'J' && c != 'L' && c != 'U' && c != 'Y' && c != 'T' && c != '\0'
  }

  predicate RefersTo(c: char) { c == 'R' || c == 'O' }

  /** A part without its tags. */
  function BaseOf(p: Part): string { if p.Id? then SourceName(p.id) else [p.c, p.d] }

  lemma {:induction false} BaseHead(p: Part)
    requires PartFits(p)
    ensures |BaseOf(p)| >= 2 && WritePart(p) == BaseOf(p) + WriteTags(p.tags)
    ensures p.Id? ==> '1' <= BaseOf(p)[0] <= '9'
    ensures p.Operator? ==> 'a' <= BaseOf(p)[0] <= 's' && BaseOf(p)[0] == p.c && BaseOf(p)[1] == p.d
  {
    hide WriteTags, TagsFit;
    if p.Id? { SourceHead(p.id); }
  }

  lemma {:induction false} PartHead(p: Part)
    requires PartFits(p)
    ensures |WritePart(p)| >= 2
    ensures p.Id? ==> '1' <= WritePart(p)[0] <= '9'
    ensures p.Operator? ==> 'a' <= WritePart(p)[0] <= 's' && WritePart(p)[0] == p.c && WritePart(p)[1] == p.d
  {
    hide WritePart, BaseOf, WriteTags, PartFits;
    BaseHead(p);
  }

  lemma {:induction false} SubHead(sub: Sub, subs: int)
    requires SubFits(sub, subs)
    ensures |WriteSub(sub)| >= 2 && WriteSub(sub)[0] == 'S' && WriteSub(sub)[1] != 't' && WriteSub(sub)[1] != '\0'
  {
    if sub.Numbered? { assert IsDigit(sub.digits[0]) || IsUpper(sub.digits[0]); }
  }

  lemma {:induction false} NameHead(n: Name, subs: int)
    requires NameFits(n, subs)
    ensures |WriteName(n)| >= 2 && CanBegin(WriteName(n)[0]) && WriteName(n)[0] != 'G' && WriteName(n)[0] != 'Z'
    ensures n.Nested? ==> WriteName(n)[0] == 'N'
    ensures !n.Nested? && n.std ==> WriteName(n)[0] == 'S' && WriteName(n)[1] == 't'
    ensures !n.Nested? && !n.std && n.part.Id? ==> '1' <= WriteName(n)[0] <= '9'
    ensures !n.Nested? && !n.std && n.part.Operator? ==> 'a' <= WriteName(n)[0] <= 's'
  {
    if n.Nested? {
    } else {
      PartHead(n.part);
    }
  }

  lemma {:induction false} LetterHead(c: char)
    requires IsBuiltin(c) || c in "PROCG"
    ensures CanBegin(c)
  {
  }

  lemma {:induction false} TypeHead(t: Type, subs: int)
    requires TypeFits(t, subs)
    ensures WriteType(t) != "" && CanBegin(WriteType(t)[0]) && (WriteType(t)[0] == 'v' ==> t == Builtin('v'))
    ensures |WriteType(t)| >= 2 && RefersTo(WriteType(t)[0]) ==> WriteType(t)[1] != 'E'
  {
    hide NameFits, TypesFit, ArgsFit, SubFits, WriteName, WriteSub, WriteTypes, WriteParams, CanBegin;
    if t.Class? {
      NameHead(t.name, subs);
      ClassHead(t.name, subs);
    } else if t.Known? || t.Special? {
      SubHead(t.sub, subs);
      Letters();
    } else if t.Prefixed? {
      LetterHead(t.c);
      TypeHead(t.inner, subs);
      Letters();
    } else {
      LetteredHead(t, subs);
    }
  }

  /** Types that begin with a letter of their own. */
  lemma {:induction false} LetteredHead(t: Type, subs: int)
    requires TypeFits(t, subs) && !t.Class? && !t.Known? && !t.Special? && !t.Prefixed?
    ensures WriteType(t) != "" && CanBegin(WriteType(t)[0]) && (WriteType(t)[0] == 'v' ==> t == Builtin('v'))
    ensures !RefersTo(WriteType(t)[0])
  {
    hide TypeFits, CanBegin, WriteType;
    if t.Builtin? {
      assert IsBuiltin(t.c) && WriteType(t) == [t.c] by { BuiltinIs(t, subs); }
      LetterHead(t.c);
    } else {
      OwnHead(t, subs);
      Letters();
    }
  }

  lemma {:induction false} BuiltinIs(t: Type, subs: int)
    requires TypeFits(t, subs) && t.Builtin?
    ensures IsBuiltin(t.c) && WriteType(t) == [t.c]
  {
  }

  lemma {:induction false} OwnHead(t: Type, subs: int)
    requires TypeFits(t, subs) && !t.Builtin? && !t.Class? && !t.Known? && !t.Special? && !t.Prefixed?
    ensures WriteType(t) != ""
    ensures var c := WriteType(t)[0];
            c == 'D' || c == 'u' || c == 'r' || c == 'V' || c == 'K' || c == 'F' || c == 'A' || c == 'M'
  {
    hide NameFits, TypesFit, ArgsFit, WriteTypes, WriteParams;
  }

  lemma {:induction false} ClassHead(n: Name, subs: int)
    requires NameFits(n, subs) && (n.Nested? || n.part.Id?)
    ensures WriteName(n)[0] != 'v' && !RefersTo(WriteName(n)[0])
  {
    NameHead(n, subs);
  }

  lemma {:induction false} Letters()
    ensures CanBegin('D') && CanBegin('u') && CanBegin('S') && CanBegin('r') && CanBegin('V') && CanBegin('K') && CanBegin('F') && CanBegin('A')
            && CanBegin('M') && CanBegin('N')
    ensures !CanBegin('E')
  {
  }

  // ---------------------------------------------------------------- one type

  /** What the parser sees of a type first. */
  lemma {:induction false} TypeCases(s: string, at: nat, subs: int, t: Type)
    requires TypeAt(s, at, subs, t)
    ensures var c, d := CharAt(s, at), CharAt(s, at + 1);
            && at < |s| && CanBegin(c) && !OnlyArgument(t)
            && (t.Builtin? <==> IsBuiltin(c)) && (t.Builtin? ==> |WriteType(t)| == 1 && Adds(t) == 0)
            && (t.Extended? <==> c == 'D' && IsExtended(d)) && (t.Extended? ==> |WriteType(t)| == 2 && Adds(t) == 0 && at + 2 <= |s|)
            && (t.Known? || t.Special? <==> c == 'S' && d != '\0' && d != 't')
  {
    hide CanBegin, IsBuiltin, IsExtended, Here, Apart, NameFits, TypesFit, ArgsFit, SubFits, WriteName, WriteSub, WriteTypes, WriteParams, Adds;
    TypeHead(t, subs);
    FirstTwo(s, at, WriteType(t));
    BuiltinLetters();
    match t
    case Class(name) => NameHead(name, subs); ClassLetters(name, subs);
    case Known(sub) => SubHead(sub, subs);
    case Special(sub, _) => SubHead(sub, subs);
    case Qualified(_, _) => QualifierLetters(t);
    case Function(_, _, _, _, _, _) => QualifierLetters(t);
    case Builtin(c) => PlainTypes(t);
    case Extended(_) => PlainTypes(t);
    case _ =>
  }

  lemma {:induction false} PlainTypes(t: Type)
    requires t.Builtin? || t.Extended?
    ensures Adds(t) == 0 && |WriteType(t)| == if t.Builtin? then 1 else 2
  {
  }

  lemma {:induction false} BuiltinLetters()
    ensures !IsBuiltin('D') && !IsBuiltin('u') && !IsBuiltin('S') && !IsBuiltin('r') && !IsBuiltin('V') && !IsBuiltin('K') && !IsBuiltin('F')
    ensures !IsBuiltin('A') && !IsBuiltin('M') && !IsBuiltin('N') && !IsBuiltin('P') && !IsBuiltin('R') && !IsBuiltin('O') && !IsBuiltin('C')
    ensures !IsBuiltin('G') && !IsExtended('p') && !IsExtended('o') && !IsExtended('x')
  {
  }

  lemma {:induction false} ClassLetters(n: Name, subs: int)
    requires NameFits(n, subs) && (n.Nested? || n.part.Id?)
    ensures var c := WriteName(n)[0];
            && (c == 'N' || c == 'S' || '1' <= c <= '9') && !IsBuiltin(c) && (c == 'S' ==> WriteName(n)[1] == 't')
  {
    NameHead(n, subs);
  }

  lemma {:induction false} QualifierLetters(t: Type)
    requires t.Qualified? || t.Function?
    requires t.Qualified? ==> t.quals.r || t.quals.v || t.quals.k
    ensures WriteType(t) != "" && WriteType(t)[0] in "rVKFD" && (t.Qualified? ==> WriteType(t)[0] in "rVK")
    ensures WriteType(t)[0] == 'D' ==> |WriteType(t)| >= 2 && WriteType(t)[1] in "ox"
  {
    hide WriteParams;
  }

  /** A type behind some text. */
  lemma {:induction false} Behind(s: string, at: nat, subs: int, text: string, inner: Type)
    requires TypeFits(inner, subs) && Here(s, at, text + WriteType(inner)) && Apart(inner, CharAt(s, at + |text + WriteType(inner)|))
    ensures TypeAt(s, at + |text|, subs, inner)
  {
    hide TypeFits, WriteType, Apart;
    Split(s, at, text, WriteType(inner));
  }

  lemma {:induction false} NextBegins(s: string, at: nat, subs: int, inner: Type)
    requires TypeFits(inner, subs) && Here(s, at, WriteType(inner))
    ensures CanBegin(CharAt(s, at))
  {
    hide WriteType;
    TypeHead(inner, subs);
    FirstTwo(s, at, WriteType(inner));
  }

  lemma {:induction false} LooseIsApart(t: Type, c: char)
    requires Loose(c)
    ensures Apart(t, c)
  {
    match t
    case Prefixed(_, inner) => LooseIsApart(inner, c);
    case Qualified(_, inner) => LooseIsApart(inner, c);
    case Array(_, inner) => LooseIsApart(inner, c);
    case Member(_, inner) => LooseIsApart(inner, c);
    case PackOf(inner) => LooseIsApart(inner, c);
    case _ =>
  }

  predicate ArgsAt(s: string, at: nat, subs: int, ts: Types) {
    ArgsFit(ts, subs) && Here(s, at, "I" + (WriteTypes(ts) + "E"))
  }

  lemma {:induction false} VendorCase(s: string, at: nat, subs: int, t: Type)
    requires t.Vendor? && TypeAt(s, at, subs, t)
    ensures CharAt(s, at) == 'u' && at < |s| && IsId(t.id) && Here(s, at + 1, SourceName(t.id)) && Adds(t) == 1
    ensures |WriteType(t)| == 1 + |SourceName(t.id)|
  {
    Split(s, at, "u", SourceName(t.id));
    FirstTwo(s, at, WriteType(t));
  }

  lemma {:induction false} ClassCase(s: string, at: nat, subs: int, t: Type)
    requires t.Class? && TypeAt(s, at, subs, t)
    ensures var c := CharAt(s, at); (c == 'N' || c == 'S' || '1' <= c <= '9')
    ensures NameAt(s, at, subs, t.name) && Adds(t) == NameAdds(t.name) + 1 && |WriteType(t)| == |WriteName(t.name)|
  {
    hide NameFits, Here;
    ClassLetters(t.name, subs);
    NameHead(t.name, subs);
    FirstTwo(s, at, WriteType(t));
  }

  lemma {:induction false} KnownCase(s: string, at: nat, subs: int, t: Type)
    requires t.Known? && TypeAt(s, at, subs, t)
    ensures SubAt(s, at, subs, t.sub) && CharAt(s, at + |WriteSub(t.sub)|) != 'I' && Adds(t) == 0 && |WriteType(t)| == |WriteSub(t.sub)|
  {
    hide SubFits, Here;
  }

  lemma {:induction false} SpecialCase(s: string, at: nat, subs: int, t: Type)
    requires t.Special? && TypeAt(s, at, subs, t)
    ensures SubAt(s, at, subs, t.sub) && CharAt(s, at + |WriteSub(t.sub)|) == 'I' && ArgsAt(s, at + |WriteSub(t.sub)|, subs, t.args)
    ensures Adds(t) == TypesAdd(t.args) + 1 && |WriteType(t)| == |WriteSub(t.sub)| + |"I" + (WriteTypes(t.args) + "E")|
  {
    hide SubFits, TypesFit, ArgsFit, WriteTypes, WriteSub;
    var args := "I" + (WriteTypes(t.args) + "E");
    Split(s, at, WriteSub(t.sub), args);
    FirstTwo(s, at + |WriteSub(t.sub)|, args);
  }

  lemma {:induction false} PrefixedCase(s: string, at: nat, subs: int, t: Type)
    requires t.Prefixed? && TypeAt(s, at, subs, t)
    ensures CharAt(s, at) in "PROCG" && at < |s| && TypeAt(s, at + 1, subs, t.inner)
    ensures Adds(t) == Adds(t.inner) + 1 && |WriteType(t)| == 1 + |WriteType(t.inner)|
  {
    FirstTwo(s, at, WriteType(t));
    Behind(s, at, subs, [t.c], t.inner);
  }

  lemma {:induction false} PackCase(s: string, at: nat, subs: int, t: Type)
    requires t.PackOf? && TypeAt(s, at, subs, t)
    ensures CharAt(s, at) == 'D' && CharAt(s, at + 1) == 'p' && at + 2 <= |s| && TypeAt(s, at + 2, subs, t.inner)
    ensures Adds(t) == Adds(t.inner) + 1 && |WriteType(t)| == 2 + |WriteType(t.inner)|
  {
    FirstTwo(s, at, WriteType(t));
    Behind(s, at, subs, "Dp", t.inner);
  }

  lemma {:induction false} MemberCase(s: string, at: nat, subs: int, t: Type)
    requires t.Member? && TypeAt(s, at, subs, t)
    ensures CharAt(s, at) == 'M' && at < |s| && TypeAt(s, at + 1, subs, t.cls)
    ensures TypeAt(s, at + 1 + |WriteType(t.cls)|, subs + Adds(t.cls), t.inner)
    ensures Adds(t) == Adds(t.cls) + Adds(t.inner) + 1 && |WriteType(t)| == 1 + |WriteType(t.cls)| + |WriteType(t.inner)|
  {
    hide Here, TypeFits, Apart, WriteType, CanBegin;
    assert WriteType(t) == "M" + (WriteType(t.cls) + WriteType(t.inner)) && TypeFits(t.cls, subs) && TypeFits(t.inner, subs + Adds(t.cls))
           && Apart(t.inner, CharAt(s, at + |WriteType(t)|)) by { MemberParts(s, at, subs, t); }
    FirstTwo(s, at, WriteType(t));
    Split(s, at, "M", WriteType(t.cls) + WriteType(t.inner));
    Split(s, at + 1, WriteType(t.cls), WriteType(t.inner));
    NextBegins(s, at + 1 + |WriteType(t.cls)|, subs + Adds(t.cls), t.inner);
    BeginIsLoose(CharAt(s, at + 1 + |WriteType(t.cls)|));
    LooseIsApart(t.cls, CharAt(s, at + 1 + |WriteType(t.cls)|));
    Behind(s, at + 1, subs + Adds(t.cls), WriteType(t.cls), t.inner);
  }

  lemma {:induction false} MemberParts(s: string, at: nat, subs: int, t: Type)
    requires t.Member? && TypeAt(s, at, subs, t)
    ensures WriteType(t) == "M" + (WriteType(t.cls) + WriteType(t.inner)) && TypeFits(t.cls, subs) && TypeFits(t.inner, subs + Adds(t.cls))
    ensures Apart(t.inner, CharAt(s, at + |WriteType(t)|)) && Here(s, at, WriteType(t))
  {
  }

  lemma {:induction false} BeginIsLoose(c: char)
    requires CanBegin(c)
    ensures Loose(c) && c != 'E' && !(c in "E._") && c != '\0'
  {
  }

  lemma {:induction false} ArrayCase(s: string, at: nat, subs: int, t: Type)
    requires t.Array? && TypeAt(s, at, subs, t)
    ensures CharAt(s, at) == 'A' && at < |s| && AllDigits(t.bound) && Here(s, at + 1, t.bound + ("_" + WriteType(t.inner)))
    ensures TypeAt(s, at + 2 + |t.bound|, subs, t.inner)
    ensures Adds(t) == Adds(t.inner) + 1 && |WriteType(t)| == 2 + |t.bound| + |WriteType(t.inner)|
  {
    hide TypeFits, Apart;
    assert TypeFits(t.inner, subs) && Apart(t.inner, CharAt(s, at + |WriteType(t)|)) && AllDigits(t.bound) by { ArrayParts(s, at, subs, t); }
    FirstTwo(s, at, WriteType(t));
    var w := WriteType(t.inner);
    Split(s, at, "A", t.bound + ("_" + w));
    Split(s, at + 1, t.bound, "_" + w);
    Behind(s, at + 1 + |t.bound|, subs, "_", t.inner);
  }

  lemma {:induction false} ArrayParts(s: string, at: nat, subs: int, t: Type)
    requires t.Array? && TypeAt(s, at, subs, t)
    ensures TypeFits(t.inner, subs) && Apart(t.inner, CharAt(s, at + |WriteType(t)|)) && AllDigits(t.bound)
  {
  }

  // ---------------------------------------------------------------- qualifiers

  /** How many qualifiers are read. */
  function QualLength(s: string, at: nat): (n: nat)
    ensures at <= |s| ==> at + n <= |s|
  {
    var a := if CharAt(s, at) == 'r' then 1 else 0;
    var b := a + if CharAt(s, at + a) == 'V' then 1 else 0;
    b + if CharAt(s, at + b) == 'K' then 1 else 0
  }

  lemma {:induction false} QualifiersRead(s: string, at: nat, q: Qualifiers, rest: string)
    requires Here(s, at, QualLetters(q) + rest) && rest != "" && rest[0] !in "rVK"
    ensures QualLength(s, at) == |QualLetters(q)| && Here(s, at + |QualLetters(q)|, rest) && CharAt(s, at + |QualLetters(q)|) == rest[0]
  {
    var text := QualLetters(q) + rest;
    Split(s, at, QualLetters(q), rest);
    FirstTwo(s, at + |QualLetters(q)|, rest);
    CharOf(s, at, text, 0);
    if |QualLetters(q)| > 0 { CharOf(s, at, text, 1); }
    if |QualLetters(q)| > 1 { CharOf(s, at, text, 2); }
    if |QualLetters(q)| > 2 { CharOf(s, at, text, 3); }
  }

  lemma {:induction false} QualifiedCase(s: string, at: nat, subs: int, t: Type)
    requires t.Qualified? && TypeAt(s, at, subs, t)
    ensures var n := |QualLetters(t.quals)|;
            && CharAt(s, at) in "rVK" && QualLength(s, at) == n && TypeAt(s, at + n, subs, t.inner)
            && CharAt(s, at + n) != 'F' && !(CharAt(s, at + n) == 'D' && CharAt(s, at + n + 1) in "oOwx")
            && Adds(t) == Adds(t.inner) + 1 && |WriteType(t)| == n + |WriteType(t.inner)|
  {
    hide TypeFits, Apart, WriteType, IsExtended;
    QualifiedParts(s, at, subs, t);
    var w := WriteType(t.inner);
    InnerHead(t.inner, subs);
    QualifiersRead(s, at, t.quals, w);
    FirstTwo(s, at, WriteType(t));
    Behind(s, at, subs, QualLetters(t.quals), t.inner);
    FirstTwo(s, at + |QualLetters(t.quals)|, w);
  }

  lemma {:induction false} QualifiedParts(s: string, at: nat, subs: int, t: Type)
    requires t.Qualified? && TypeAt(s, at, subs, t)
    ensures TypeFits(t.inner, subs) && !t.inner.Qualified? && !t.inner.Function? && Apart(t.inner, CharAt(s, at + |WriteType(t)|))
    ensures WriteType(t) == QualLetters(t.quals) + WriteType(t.inner) && QualLetters(t.quals) != "" && QualLetters(t.quals)[0] in "rVK"
    ensures Here(s, at, WriteType(t)) && Adds(t) == Adds(t.inner) + 1
  {
  }

  /** What qualifiers may stand in front of. */
  lemma {:induction false} InnerHead(t: Type, subs: int)
    requires TypeFits(t, subs) && !t.Qualified? && !t.Function?
    ensures WriteType(t) != "" && WriteType(t)[0] !in "rVK" && WriteType(t)[0] != 'F'
    ensures WriteType(t)[0] == 'D' ==> |WriteType(t)| >= 2 && WriteType(t)[1] !in "oOwx"
  {
    hide NameFits, TypesFit, ArgsFit, SubFits, WriteName, WriteSub, WriteTypes, WriteParams, CanBegin;
    TypeHead(t, subs);
    match t
    case Class(name) => ClassLetters(name, subs);
    case Known(sub) => SubHead(sub, subs);
    case Special(sub, _) => SubHead(sub, subs);
    case _ =>
  }

  // ---------------------------------------------------------------- functions

  /** Behind the qualifiers of a function type. */
  function FunctionRest(t: Type): string
    requires t.Function?
  {
    (if t.externC then "FY" else "F") + (WriteType(t.ret) + (WriteParams(t.params) + (RefLetter(t.ref) + "E")))
  }

  lemma {:induction false} MarksSee(s: string, at: nat, m: Marks, rest: string)
    requires Here(s, at, MarkLetters(m) + rest) && rest != "" && rest[0] == 'F'
    ensures Here(s, at + |MarkLetters(m)|, rest) && CharAt(s, at + |MarkLetters(m)|) == 'F' && at + |MarkLetters(m)| < |s|
    ensures m.noThrow <==> Here(s, at, "Do")
    ensures !Here(s, at, "DO") && !Here(s, at, "Dw")
    ensures m.safe <==> Here(s, at + if m.noThrow then 2 else 0, "Dx")
    ensures if MarkLetters(m) == "" then CharAt(s, at) == 'F' else CharAt(s, at) == 'D' && CharAt(s, at + 1) in "ox"
    ensures |MarkLetters(m)| == (if m.noThrow then 2 else 0) + if m.safe then 2 else 0
  {
    var a, b := if m.noThrow then "Do" else "", if m.safe then "Dx" else "";
    var mid := at + |a|;
    assert MarkLetters(m) + rest == a + (b + rest);
    Split(s, at, a, b + rest);
    Split(s, mid, b, rest);
    FirstTwo(s, mid + |b|, rest);
    FirstTwo(s, at, a + (b + rest));
    FirstTwo(s, mid, b + rest);
    if Here(s, at, "Do") { FirstTwo(s, at, "Do"); }
    if Here(s, at, "DO") { FirstTwo(s, at, "DO"); }
    if Here(s, at, "Dw") { FirstTwo(s, at, "Dw"); }
    if Here(s, mid, "Dx") { FirstTwo(s, mid, "Dx"); }
  }

  lemma {:induction false} FunctionCase(s: string, at: nat, subs: int, t: Type)
    requires t.Function? && TypeAt(s, at, subs, t)
    ensures var n := |QualLetters(t.quals)|;
            && QualLength(s, at) == n && (n > 0 ==> CharAt(s, at) in "rVK")
            && Here(s, at + n, MarkLetters(t.marks) + FunctionRest(t)) && FunctionRest(t) != "" && FunctionRest(t)[0] == 'F'
            && (CharAt(s, at + n) == 'F' || (CharAt(s, at + n) == 'D' && CharAt(s, at + n + 1) in "ox"))
            && Adds(t) == Adds(t.ret) + TypesAdd(t.params) + 1 && |WriteType(t)| == n + |MarkLetters(t.marks)| + |FunctionRest(t)|
  {
    hide TypeFits, TypesFit, ArgsFit, Apart, WriteType, WriteParams, NoVoid, Here, FunctionRest, MarkLetters;
    FunctionParts(s, at, subs, t);
    var body := MarkLetters(t.marks) + FunctionRest(t);
    QualifiersRead(s, at, t.quals, body);
    Split(s, at, QualLetters(t.quals), body);
    MarksSee(s, at + |QualLetters(t.quals)|, t.marks, FunctionRest(t));
    FirstTwo(s, at, QualLetters(t.quals));
  }

  /** ... and what stands behind the F. */
  lemma {:induction false} FunctionRestCase(s: string, at: nat, subs: int, t: Type)
    requires t.Function? && TypeFits(t, subs) && Here(s, at, FunctionRest(t))
    ensures var from := at + if t.externC then 2 else 1;
            && from <= |s| && (CharAt(s, at + 1) == 'Y' <==> t.externC) && TypeAt(s, from, subs, t.ret)
            && TypesFit(t.params, subs + Adds(t.ret)) && NoVoid(t.params)
            && Here(s, from + |WriteType(t.ret)|, WriteParams(t.params) + (RefLetter(t.ref) + "E"))
            && |FunctionRest(t)| == from - at + |WriteType(t.ret)| + |WriteParams(t.params)| + |RefLetter(t.ref)| + 1
  {
    hide TypesFit, ArgsFit, Apart, WriteType, WriteParams, NoVoid, CanBegin, Here, RefLetter;
    var mark := if t.externC then "FY" else "F";
    var list := WriteParams(t.params) + (RefLetter(t.ref) + "E");
    var from := at + |mark|;
    Split(s, at, mark, WriteType(t.ret) + list);
    FirstTwo(s, at, mark);
    Split(s, from, WriteType(t.ret), list);
    NextBegins(s, from, subs, t.ret);
    BeginsNotY(CharAt(s, from));
    ListBegins(s, from + |WriteType(t.ret)|, subs + Adds(t.ret), t.params, RefLetter(t.ref) + "E");
    LooseIsApart(t.ret, CharAt(s, from + |WriteType(t.ret)|));
    HereFits(s, at, mark);
  }

  lemma {:induction false} HereFits(s: string, at: nat, text: string)
    requires Here(s, at, text)
    ensures at + |text| <= |s|
  {
  }

  lemma {:induction false} BeginsNotY(c: char)
    requires CanBegin(c)
    ensures c != 'Y'
  {
  }

  lemma {:induction false} FunctionParts(s: string, at: nat, subs: int, t: Type)
    requires t.Function? && TypeAt(s, at, subs, t)
    ensures TypeFits(t.ret, subs) && TypesFit(t.params, subs + Adds(t.ret)) && NoVoid(t.params)
    ensures WriteType(t) == QualLetters(t.quals) + (MarkLetters(t.marks) + FunctionRest(t)) && FunctionRest(t) != "" && FunctionRest(t)[0] == 'F'
    ensures MarkLetters(t.marks) + FunctionRest(t) != "" && (MarkLetters(t.marks) + FunctionRest(t))[0] !in "rVK"
    ensures QualLetters(t.quals) != "" ==> QualLetters(t.quals)[0] in "rVK"
    ensures Here(s, at, WriteType(t)) && Adds(t) == Adds(t.ret) + TypesAdd(t.params) + 1
    ensures |RefLetter(t.ref)| <= 1 && (RefLetter(t.ref) + "E")[0] in "ROE"
  {
    hide WriteParams, TypesFit, ArgsFit, NoVoid;
  }

  /** A parameter list begins with a type or a lone `v`. */
  lemma {:induction false} ListBegins(s: string, at: nat, subs: int, ts: Types, rest: string)
    requires TypesFit(ts, subs) && Here(s, at, WriteParams(ts) + rest)
    ensures CanBegin(CharAt(s, at)) && Loose(CharAt(s, at))
  {
    hide TypeFits, WriteType, CanBegin;
    Split(s, at, WriteParams(ts), rest);
    if ts.NoTypes? {
      FirstTwo(s, at, "v");
      assert CanBegin('v') by { LetterHead('v'); }
    } else {
      Split(s, at, WriteType(ts.head), WriteTypes(ts.tail));
      NextBegins(s, at, subs, ts.head);
    }
    BeginIsLoose(CharAt(s, at));
  }

  // ---------------------------------------------------------------- lists of types

  /** The first type of a list, and the others behind it. */
  lemma {:induction false} TypesStep(s: string, at: nat, subs: int, ts: Types)
    requires TypesAt(s, at, subs, ts) && ts.Types?
    ensures var next := at + |WriteType(ts.head)|;
            && TypeAt(s, at, subs, ts.head) && TypesAt(s, next, subs + Adds(ts.head), ts.tail) && WriteType(ts.head) != ""
            && TypesAdd(ts) == Adds(ts.head) + TypesAdd(ts.tail) && |WriteTypes(ts)| == |WriteType(ts.head)| + |WriteTypes(ts.tail)|
            && CanBegin(CharAt(s, at)) && (ts.tail.Types? ==> CanBegin(CharAt(s, next)))
            && (CharAt(s, at) == 'v' ==> ts.head == Builtin('v'))
            && (RefersTo(CharAt(s, at)) ==> CharAt(s, at + 1) != 'E')
  {
    hide TypeFits, WriteType, CanBegin, Apart, Here;
    Split(s, at, WriteType(ts.head), WriteTypes(ts.tail));
    TypeHead(ts.head, subs);
    FirstTwo(s, at, WriteType(ts.head));
    var next := at + |WriteType(ts.head)|;
    if ts.tail.Types? {
      assert TypesFit(ts.tail, subs + Adds(ts.head));
      Split(s, next, WriteType(ts.tail.head), WriteTypes(ts.tail.tail));
      NextBegins(s, next, subs + Adds(ts.head), ts.tail.head);
      BeginIsLoose(CharAt(s, next));
    }
    LooseIsApart(ts.head, CharAt(s, next));
    RoomFor(s, at, ts, subs);
  }

  lemma {:induction false} RoomFor(s: string, at: nat, ts: Types, subs: int)
    requires ts.Types? && TypeFits(ts.head, subs) && Here(s, at, WriteType(ts.head))
    ensures RefersTo(CharAt(s, at)) ==> CharAt(s, at + 1) != 'E'
  {
    TypeHead(ts.head, subs);
    FirstTwo(s, at, WriteType(ts.head));
    if RefersTo(CharAt(s, at)) { LongHead(ts.head, subs); }
  }

  /** A type that begins with one of these goes on. */
  lemma {:induction false} LongHead(t: Type, subs: int)
    requires TypeFits(t, subs) && WriteType(t) != "" && RefersTo(WriteType(t)[0])
    ensures |WriteType(t)| >= 2
  {
    hide NameFits, TypesFit, ArgsFit, SubFits, WriteName, WriteSub, WriteTypes, WriteParams, CanBegin;
    match t
    case Class(name) => ClassHead(name, subs);
    case Known(sub) => SubHead(sub, subs);
    case Special(sub, _) => SubHead(sub, subs);
    case Prefixed(_, inner) => TypeHead(inner, subs);
    case Function(_, _, _, _, _, _) => assert WriteType(t)[0] in "rVKFD" by { QualifierLetters(t); }
    case Qualified(_, _) => assert WriteType(t)[0] in "rVK" by { QualifierLetters(t); }
    case _ =>
  }

  predicate ArgAt(s: string, at: nat, subs: int, t: Type) {
    ArgFits(t, subs) && Here(s, at, WriteType(t)) && Apart(t, CharAt(s, at + |WriteType(t)|))
  }

  predicate ArgsListAt(s: string, at: nat, subs: int, ts: Types) {
    ArgsFit(ts, subs) && Here(s, at, WriteTypes(ts)) && CharAt(s, at + |WriteTypes(ts)|) == 'E'
  }

  predicate OnlyArgument(t: Type) { t.Number? || t.Truth? || t.ArgPack? }

  lemma {:induction false} ArgHead(t: Type, subs: int)
    requires ArgFits(t, subs)
    ensures WriteType(t) != "" && var c := WriteType(t)[0]; c != 'E' && Loose(c)
    ensures OnlyArgument(t) ==> WriteType(t)[0] == if t.ArgPack? then 'J' else 'L'
    ensures !OnlyArgument(t) ==> TypeFits(t, subs)
  {
    hide TypeFits, ArgsFit, WriteTypes, CanBegin;
    if !OnlyArgument(t) {
      TypeHead(t, subs);
      BeginIsLoose(WriteType(t)[0]);
    }
  }

  /** A list of arguments up to an E. */
  lemma {:induction false} ListIsClosed(s: string, at: nat, subs: int, ts: Types)
    requires ArgsFit(ts, subs) && Here(s, at, WriteTypes(ts) + "E")
    ensures ArgsListAt(s, at, subs, ts) && at + |WriteTypes(ts)| < |s|
  {
    hide ArgsFit, WriteTypes;
    Split(s, at, WriteTypes(ts), "E");
    FirstTwo(s, at + |WriteTypes(ts)|, "E");
  }

  /** The first argument of a list, and the others behind it. */
  lemma {:induction false} ArgsStep(s: string, at: nat, subs: int, ts: Types)
    requires ArgsListAt(s, at, subs, ts) && ts.Types?
    ensures var next := at + |WriteType(ts.head)|;
            && ArgAt(s, at, subs, ts.head) && ArgsListAt(s, next, subs + Adds(ts.head), ts.tail) && CharAt(s, at) != 'E'
            && TypesAdd(ts) == Adds(ts.head) + TypesAdd(ts.tail) && |WriteTypes(ts)| == |WriteType(ts.head)| + |WriteTypes(ts.tail)|
  {
    hide ArgFits, TypeFits, WriteType, CanBegin, Apart, Here, Adds;
    Split(s, at, WriteType(ts.head), WriteTypes(ts.tail));
    ArgHead(ts.head, subs);
    FirstTwo(s, at, WriteType(ts.head));
    var next := at + |WriteType(ts.head)|;
    if ts.tail.Types? {
      assert ArgsFit(ts.tail, subs + Adds(ts.head));
      Split(s, next, WriteType(ts.tail.head), WriteTypes(ts.tail.tail));
      ArgHead(ts.tail.head, subs + Adds(ts.head));
      FirstTwo(s, next, WriteType(ts.tail.head));
    }
    LooseIsApart(ts.head, CharAt(s, next));
  }

  lemma {:induction false} ArgCase(s: string, at: nat, subs: int, t: Type)
    requires ArgAt(s, at, subs, t)
    ensures !OnlyArgument(t) ==> TypeAt(s, at, subs, t) && CharAt(s, at) != 'X' && CharAt(s, at) != 'J' && CharAt(s, at) != 'L'
    ensures t.ArgPack? ==> CharAt(s, at) == 'J' && at < |s| && ArgsFit(t.args, subs) && Here(s, at + 1, WriteTypes(t.args) + "E")
                           && |WriteType(t)| == 2 + |WriteTypes(t.args)| && Adds(t) == TypesAdd(t.args)
    ensures t.Number? || t.Truth? ==> CharAt(s, at) == 'L' && CharAt(s, at + 1) != 'Z' && Adds(t) == 0
  {
    hide TypeFits, ArgsFit, WriteTypes, CanBegin, Apart;
    ArgHead(t, subs);
    FirstTwo(s, at, WriteType(t));
    if !OnlyArgument(t) {
      TypeHead(t, subs);
      BeginsNoArg(CharAt(s, at));
    } else if t.ArgPack? {
      Split(s, at, "J", WriteTypes(t.args) + "E");
    }
  }

  lemma {:induction false} LiteralCase(s: string, at: nat, subs: int, t: Type)
    requires ArgAt(s, at, subs, t) && (t.Number? || t.Truth?)
    ensures CharAt(s, at) == 'L' && at + 1 < |s|
    ensures t.Number? ==> CharAt(s, at + 1) == t.c && t.c in "wcahstijlmxyno" && AllDigits(t.digits) && t.digits != ""
                          && Here(s, at + 2, (if t.negative then "n" else "") + (t.digits + "E"))
                          && |WriteType(t)| == 3 + (if t.negative then 1 else 0) + |t.digits|
    ensures t.Truth? ==> CharAt(s, at + 1) == 'b' && |WriteType(t)| == 4 && (Here(s, at + 1, "b0E") <==> !t.value) && (t.value ==> Here(s, at + 1, "b1E"))
  {
    FirstTwo(s, at, WriteType(t));
    if t.Number? {
      var rest := (if t.negative then "n" else "") + (t.digits + "E");
      assert WriteType(t) == ("L" + [t.c]) + rest;
      Split(s, at, "L" + [t.c], rest);
    } else {
      var word := if t.value then "b1E" else "b0E";
      Split(s, at, "L", word);
      FirstTwo(s, at + 1, word);
      if Here(s, at + 1, "b0E") { FirstTwo(s, at + 1, "b0E"); }
    }
  }

  /** A sign, if any, digits and an E. */
  lemma {:induction false} NumberCase(s: string, at: nat, negative: bool, digits: string, end: nat)
    requires AllDigits(digits) && digits != "" && Here(s, at, (if negative then "n" else "") + (digits + "E"))
    requires var from := at + if CharAt(s, at) == 'n' then 1 else 0;
             from <= end <= |s| && AllDigits(s[from..end]) && (end == |s| || !IsDigit(s[end]))
    ensures (CharAt(s, at) == 'n' <==> negative) && end == at + (if negative then 1 else 0) + |digits| && CharAt(s, end) == 'E' && end < |s|
  {
    var sign := if negative then "n" else "";
    Split(s, at, sign, digits + "E");
    FirstTwo(s, at, sign + (digits + "E"));
    RunEnds(s, at + |sign|, digits, "E", end);
    FirstTwo(s, end, "E");
  }

  lemma {:induction false} ArgsCase(s: string, at: nat, subs: int, ts: Types)
    requires ArgsAt(s, at, subs, ts)
    ensures CharAt(s, at) == 'I' && at < |s| && ArgsFit(ts, subs) && Here(s, at + 1, WriteTypes(ts) + "E")
  {
    hide TypesFit, ArgsFit, WriteTypes;
    Split(s, at, "I", WriteTypes(ts) + "E");
    FirstTwo(s, at, "I" + (WriteTypes(ts) + "E"));
  }

  // ---------------------------------------------------------------- substitutions

  lemma {:induction false} SubCase(s: string, at: nat, subs: int, sub: Sub)
    requires SubAt(s, at, subs, sub)
    ensures CharAt(s, at) == 'S' && at + 2 <= |s| && CharAt(s, at + 1) != 't' && CharAt(s, at + 1) != '\0'
    ensures sub.Std? ==> CharAt(s, at + 1) == sub.c && sub.c in "absiod" && 'a' <= sub.c <= 'z' && |WriteSub(sub)| == 2 && CharAt(s, at + 2) != 'B'
    ensures sub.First? ==> CharAt(s, at + 1) == '_' && |WriteSub(sub)| == 2 && subs > 0
    ensures sub.Numbered? ==> CharAt(s, at + 1) != '_' && !('a' <= CharAt(s, at + 1) <= 'z')
                              && Here(s, at + 1, sub.digits + "_") && |WriteSub(sub)| == |sub.digits| + 2
  {
    SubHead(sub, subs);
    FirstTwo(s, at, WriteSub(sub));
    if sub.Numbered? {
      assert WriteSub(sub) == "S" + (sub.digits + "_");
      Split(s, at, "S", sub.digits + "_");
      assert WriteSub(sub)[1] == sub.digits[0];
    }
  }

  // ---------------------------------------------------------------- names

  lemma {:induction false} PartCase(s: string, at: nat, p: Part)
    requires PartAt(s, at, p)
    ensures var c, d := CharAt(s, at), CharAt(s, at + 1);
            && at + 2 <= |s| && c != 'U' && !Here(s, at, "DC") && |WritePart(p)| == |BaseOf(p)| + |WriteTags(p.tags)| && |BaseOf(p)| >= 2
            && (p.Id? <==> '1' <= c <= '9') && (p.Id? ==> IsId(p.id) && Here(s, at, SourceName(p.id)) && |BaseOf(p)| == |SourceName(p.id)|)
            && (p.Operator? ==> 'a' <= c <= 's' && SimpleOperator(c, d) && |BaseOf(p)| == 2) && TagsAt(s, at + |BaseOf(p)|, p.tags)
  {
    hide SimpleOperator, SourceName, WriteTags, TagsFit, IsId, WritePart, BaseOf, Here;
    BaseHead(p);
    Split(s, at, BaseOf(p), WriteTags(p.tags));
    FirstTwo(s, at, BaseOf(p));
    BaseLength(p);
    if Here(s, at, "DC") { FirstTwo(s, at, "DC"); }
  }

  lemma {:induction false} BaseLength(p: Part)
    ensures if p.Id? then BaseOf(p) == SourceName(p.id) else |BaseOf(p)| == 2
  {
  }

  /** Behind the B of a tag: its name, and the other tags. */
  lemma {:induction false} TagsCase(s: string, at: nat, tags: Tags)
    requires TagsAt(s, at, tags)
    ensures tags.NoTags? <==> CharAt(s, at) != 'B'
    ensures tags.NoTags? ==> |WriteTags(tags)| == 0
    ensures tags.Tag? ==>
              && at < |s| && IsId(tags.name) && Here(s, at + 1, SourceName(tags.name))
              && TagsAt(s, at + 1 + |SourceName(tags.name)|, tags.more) && |WriteTags(tags)| == 1 + |SourceName(tags.name)| + |WriteTags(tags.more)|
  {
    hide SourceName, IsId;
    if tags.Tag? {
      Split(s, at, "B", SourceName(tags.name) + WriteTags(tags.more));
      FirstTwo(s, at, WriteTags(tags));
      Split(s, at + 1, SourceName(tags.name), WriteTags(tags.more));
    }
  }

  predicate UnscopedAt(s: string, at: nat, std: bool, p: Part) {
    PartFits(p) && Here(s, at, (if std then "St" else "") + WritePart(p)) && CharAt(s, at + (if std then 2 else 0) + |WritePart(p)|) != 'B'
  }

  lemma {:induction false} UnscopedCase(s: string, at: nat, std: bool, p: Part)
    requires UnscopedAt(s, at, std, p)
    ensures PartAt(s, at + (if std then 2 else 0), p) && at < |s|
    ensures (std <==> Here(s, at, "St")) && !Here(s, at, "StL")
  {
    hide PartFits, WritePart, Loose;
    var front := if std then "St" else "";
    Split(s, at, front, WritePart(p));
    PartHead(p);
    FirstTwo(s, at + |front|, WritePart(p));
    if Here(s, at, "St") { FirstTwo(s, at, "St"); }
    if Here(s, at, "StL") {
      assert "StL" == "St" + "L";
      Split(s, at, "St", "L");
      FirstTwo(s, at + 2, "L");
      FirstTwo(s, at, "St");
    }
  }

  lemma {:induction false} NameCase(s: string, at: nat, subs: int, n: Name)
    requires NameAt(s, at, subs, n)
    ensures var c, d := CharAt(s, at), CharAt(s, at + 1);
            && at < |s| && c != 'L' && c != 'Z' && c != 'G' && c != 'T' && !(c == 'S' && d != 't')
            && (n.Nested? <==> c == 'N')
  {
    hide NameFits, WriteName;
    NameHead(n, subs);
    FirstTwo(s, at, WriteName(n));
    NameNot(n, subs);
  }

  lemma {:induction false} NameNot(n: Name, subs: int)
    requires NameFits(n, subs)
    ensures var c, d := WriteName(n)[0], WriteName(n)[1];
            c != 'L' && c != 'Z' && c != 'G' && c != 'T' && !(c == 'S' && d != 't') && (n.Nested? <==> c == 'N')
  {
    NameHead(n, subs);
  }

  lemma {:induction false} PlainCase(s: string, at: nat, subs: int, n: Name)
    requires NameAt(s, at, subs, n) && n.Plain?
    ensures UnscopedAt(s, at, n.std, n.part) && |WriteName(n)| == (if n.std then 2 else 0) + |WritePart(n.part)|
    ensures CharAt(s, at + |WriteName(n)|) != 'I' && NameAdds(n) == 0
  {
    hide PartFits, WritePart;
  }

  lemma {:induction false} TemplateCase(s: string, at: nat, subs: int, n: Name)
    requires NameAt(s, at, subs, n) && n.Template?
    ensures var front := (if n.std then 2 else 0) + |WritePart(n.part)|;
            && |WriteName(n)| == front + |"I" + (WriteTypes(n.args) + "E")| && NameAdds(n) == 1 + TypesAdd(n.args)
            && CharAt(s, at + front) == 'I' && ArgsAt(s, at + front, subs + 1, n.args)
            && UnscopedAt(s, at, n.std, n.part)
  {
    hide PartFits, WritePart, WriteTypes, TypesFit, ArgsFit;
    var a, b := if n.std then "St" else "", "I" + (WriteTypes(n.args) + "E");
    assert WriteName(n) == a + WritePart(n.part) + b;
    Split(s, at, a + WritePart(n.part), b);
    FirstTwo(s, at + |a + WritePart(n.part)|, b);
  }

  // ---------------------------------------------------------------- nested names

  lemma {:induction false} AddsNat(t: Type, subs: int)
    requires TypeFits(t, subs)
    ensures Adds(t) >= 0
    decreases t
  {
    match t
    case Class(name) => if name.Template? { ArgsAddNat(name.args, subs + 1); } else if name.Nested? { CompsAddNat(name.comps, subs, name.std); }
    case Special(_, args) => ArgsAddNat(args, subs);
    case Prefixed(_, inner) => AddsNat(inner, subs);
    case Qualified(_, inner) => AddsNat(inner, subs);
    case Function(_, _, _, ret, params, _) =>
      AddsNat(ret, subs);
      TypesAddNat(params, subs + Adds(ret));
    case Array(_, inner) => AddsNat(inner, subs);
    case Member(cls, inner) =>
      AddsNat(cls, subs);
      AddsNat(inner, subs + Adds(cls));
    case PackOf(inner) => AddsNat(inner, subs);
    case _ =>
  }

  lemma {:induction false} TypesAddNat(ts: Types, subs: int)
    requires TypesFit(ts, subs)
    ensures TypesAdd(ts) >= 0
    decreases ts
  {
    if ts.Types? {
      AddsNat(ts.head, subs);
      TypesAddNat(ts.tail, subs + Adds(ts.head));
    }
  }

  lemma {:induction false} ArgsAddNat(ts: Types, subs: int)
    requires ArgsFit(ts, subs)
    ensures TypesAdd(ts) >= 0
    decreases ts
  {
    if ts.Types? {
      if ts.head.ArgPack? {
        ArgsAddNat(ts.head.args, subs);
      } else if !ts.head.Number? && !ts.head.Truth? {
        AddsNat(ts.head, subs);
      }
      ArgsAddNat(ts.tail, subs + Adds(ts.head));
    }
  }

  lemma {:induction false} CompsAddNat(cs: Comps, subs: int, before: bool)
    requires CompsFit(cs, subs, before)
    ensures CompsAdd(cs) >= if cs.Comps? then 1 else 0
    decreases cs
  {
    if cs.Comps? {
      if cs.head.Args? { ArgsAddNat(cs.head.types, subs); }
      CompsAddNat(cs.tail, subs + CompAdds(cs.head), true);
    }
  }

  predicate CompAt(s: string, at: nat, subs: int, before: bool, c: Comp) {
    CompFits(c, subs, before) && Here(s, at, WriteComp(c)) && CharAt(s, at + |WriteComp(c)|) != 'B'
  }

  lemma {:induction false} CompHead(c: Comp, subs: int, before: bool)
    requires CompFits(c, subs, before)
    ensures |WriteComp(c)| >= 2
    ensures var x, y := WriteComp(c)[0], WriteComp(c)[1];
            && x != 'E' && x != 'B' && x != 'L' && x != 'M' && x != 'T' && x != 'O' && x != 'R' && x != 'V' && x != 'K' && (!before ==> x != 'r')
            && (c.Args? <==> x == 'I') && (c.From? <==> x == 'S') && (c.Structor? <==> x == 'C' || x == 'D')
            && (c.Structor? ==> x == c.kind && y == c.digit && !(x == 'D' && (y == 'C' || y in "tT")))
            && (!before ==> !(x == 'S' && y == 't'))
  {
    match c
    case From(sub) => SubHead(sub, subs);
    case Named(part) => PartHead(part);
    case Structor(_, _, _) =>
    case Args(types) => assert WriteComp(c)[0] == 'I';
  }

  lemma {:induction false} CompCase(s: string, at: nat, subs: int, before: bool, c: Comp)
    requires CompAt(s, at, subs, before, c)
    ensures var x, y := CharAt(s, at), CharAt(s, at + 1);
            && at < |s| && x != 'E' && x != 'L' && x != 'M' && x != 'T'
            && (c.Args? <==> x == 'I') && (c.From? <==> x == 'S') && (c.Structor? <==> x == 'C' || x == 'D')
            && (c.From? ==> y != 't') && (c.Structor? ==> !(x == 'D' && (y == 'C' || y in "tT")))
            && (c.From? ==> !before) && (c.Args? || c.Structor? ==> before)
  {
    hide TypesFit, ArgsFit, PartFits, WritePart, WriteTypes, SubFits, WriteSub, WriteTags, TagsFit;
    CompHead(c, subs, before);
    FirstTwo(s, at, WriteComp(c));
    if c.From? { SubHead(c.sub, subs); }
  }

  lemma {:induction false} FromCase(s: string, at: nat, subs: int, before: bool, c: Comp)
    requires CompAt(s, at, subs, before, c) && c.From?
    ensures SubAt(s, at, subs, c.sub) && |WriteComp(c)| == |WriteSub(c.sub)| && CompAdds(c) == 0
  {
    hide SubFits, WriteSub;
  }

  lemma {:induction false} NamedCase(s: string, at: nat, subs: int, before: bool, c: Comp)
    requires CompAt(s, at, subs, before, c) && c.Named?
    ensures PartAt(s, at, c.part) && |WriteComp(c)| == |WritePart(c.part)| && CompAdds(c) == 1
  {
    hide PartFits, WritePart;
  }

  lemma {:induction false} StructorCase(s: string, at: nat, subs: int, before: bool, c: Comp)
    requires CompAt(s, at, subs, before, c) && c.Structor?
    ensures IsStructor(CharAt(s, at), CharAt(s, at + 1)) && TagsAt(s, at + 2, c.tags) && |WriteComp(c)| == 2 + |WriteTags(c.tags)| && CompAdds(c) == 1
  {
    hide TagsFit, WriteTags, IsStructor;
    FirstTwo(s, at, WriteComp(c));
    Split(s, at, [c.kind, c.digit], WriteTags(c.tags));
  }

  lemma {:induction false} ArgsPartCase(s: string, at: nat, subs: int, before: bool, c: Comp)
    requires CompAt(s, at, subs, before, c) && c.Args?
    ensures ArgsAt(s, at, subs, c.types) && |WriteComp(c)| == |"I" + (WriteTypes(c.types) + "E")| && CompAdds(c) == TypesAdd(c.types) + 1
  {
    hide ArgsFit, WriteTypes;
  }

  /** The first part of a nested name, and the others behind it. */
  lemma {:induction false} CompsStep(s: string, at: nat, subs: int, before: bool, cs: Comps)
    requires CompsAt(s, at, subs, before, cs) && cs.Comps?
    ensures var next := at + |WriteComp(cs.head)|;
            && CompAt(s, at, subs, before, cs.head) && CompsAt(s, next, subs + CompAdds(cs.head), true, cs.tail)
            && CharAt(s, at) != 'E' && |WriteComps(cs)| == |WriteComp(cs.head)| + |WriteComps(cs.tail)|
            && CompsAdd(cs) == CompAdds(cs.head) + CompsAdd(cs.tail)
  {
    hide CompFits, WriteComp;
    Split(s, at, WriteComp(cs.head), WriteComps(cs.tail));
    CompHead(cs.head, subs, before);
    FirstTwo(s, at, WriteComp(cs.head));
    if cs.tail.Comps? {
      var next := at + |WriteComp(cs.head)|;
      assert CompsFit(cs.tail, subs + CompAdds(cs.head), true);
      Split(s, next, WriteComp(cs.tail.head), WriteComps(cs.tail.tail));
      CompHead(cs.tail.head, subs + CompAdds(cs.head), true);
      FirstTwo(s, next, WriteComp(cs.tail.head));
    }
  }

  /** Behind the qualifiers of a nested name. */
  function PartsOf(n: Name): string
    requires n.Nested?
  {
    (if n.std then "St" else "") + (WriteComps(n.comps) + "E")
  }

  lemma {:induction false} NestedCase(s: string, at: nat, subs: int, n: Name)
    requires NameAt(s, at, subs, n) && n.Nested?
    ensures var q, r := at + 1 + |QualLetters(n.quals)|, if n.ref == NoRef then 0 else 1;
            && CharAt(s, at) == 'N' && at < |s| && QualLength(s, at + 1) == |QualLetters(n.quals)|
            && (n.ref == RRef <==> CharAt(s, q) == 'O') && (n.ref == LRef <==> CharAt(s, q) == 'R')
            && Here(s, q + r, PartsOf(n)) && |WriteName(n)| == q + r - at + |PartsOf(n)|
  {
    hide WriteComps, CompsFit, Here, PartsOf;
    NestedText(n, subs);
    Split(s, at, "N", QualLetters(n.quals) + (RefLetter(n.ref) + PartsOf(n)));
    FirstTwo(s, at, WriteName(n));
    QualifiersRead(s, at + 1, n.quals, RefLetter(n.ref) + PartsOf(n));
    Split(s, at + 1 + |QualLetters(n.quals)|, RefLetter(n.ref), PartsOf(n));
  }

  lemma {:induction false} NestedText(n: Name, subs: int)
    requires NameFits(n, subs) && n.Nested?
    ensures WriteName(n) == "N" + (QualLetters(n.quals) + (RefLetter(n.ref) + PartsOf(n))) && PartsOf(n) != ""
    ensures var c := (RefLetter(n.ref) + PartsOf(n))[0];
            c !in "rVK" && (n.ref == RRef <==> c == 'O') && (n.ref == LRef <==> c == 'R')
  {
    hide WriteComps, CompsFit;
    FrontOfComps(n.comps, subs, n.std);
  }

  lemma {:induction false} PartsCase(s: string, at: nat, subs: int, n: Name)
    requires NameFits(n, subs) && n.Nested? && Here(s, at, PartsOf(n))
    ensures n.std <==> Here(s, at, "St")
    ensures CompsAt(s, at + (if n.std then 2 else 0), subs, n.std, n.comps) && n.comps.Comps?
    ensures |PartsOf(n)| == (if n.std then 2 else 0) + |WriteComps(n.comps)| + 1
  {
    hide WriteComps, CompsFit, Here;
    var front := if n.std then "St" else "";
    FrontOfComps(n.comps, subs, n.std);
    StHere(s, at, PartsOf(n), n.std);
    Split(s, at, front, WriteComps(n.comps) + "E");
    Split(s, at + |front|, WriteComps(n.comps), "E");
    FirstTwo(s, at + |front| + |WriteComps(n.comps)|, "E");
  }

  lemma {:induction false} StHere(s: string, at: nat, text: string, std: bool)
    requires Here(s, at, text) && |text| >= 2 && (if std then "St" <= text else !(text[0] == 'S' && text[1] == 't'))
    ensures std <==> Here(s, at, "St")
  {
    FirstTwo(s, at, text);
    if std {
      assert text == "St" + text[2..];
      Split(s, at, "St", text[2..]);
    } else if Here(s, at, "St") {
      FirstTwo(s, at, "St");
    }
  }

  lemma {:induction false} FrontOfComps(cs: Comps, subs: int, std: bool)
    requires cs.Comps? && CompsFit(cs, subs, std)
    ensures var text := WriteComps(cs) + "E";
            |text| >= 2 && (!std ==> text[0] !in "rVK" && text[0] != 'O' && text[0] != 'R' && !(text[0] == 'S' && text[1] == 't'))
  {
    hide CompFits, WriteComp;
    CompHead(cs.head, subs, std);
  }

  // ---------------------------------------------------------------- encodings

  /** The name of an encoding, and what stands behind it. */
  lemma {:induction false} EncodingCase(s: string, at: nat, subs: int, e: Encoding)
    requires EncodingAt(s, at, subs, e) && (e.Data? || e.Func?)
    ensures var end := at + |WriteName(e.name)|;
            && NameAt(s, at, subs, e.name)
            && (e.Data? <==> EndsAt(s, end)) && (e.Data? ==> |WriteEncoding(e)| == |WriteName(e.name)|)
            && (e.Func? ==> CanBegin(CharAt(s, end)) && Here(s, end, FuncRest(e)) && |WriteEncoding(e)| == |WriteName(e.name)| + |FuncRest(e)|)
  {
    hide NameFits, WriteName, TypesFit, ArgsFit, TypeFits, WriteType, WriteParams, CanBegin, Here, NoVoid;
    var end := at + |WriteName(e.name)|;
    if e.Func? {
      Split(s, at, WriteName(e.name), FuncRest(e));
      FuncBegins(s, end, subs, e);
      BeginIsLoose(CharAt(s, end));
    }
  }

  /** An encoding that says something about a type. */
  lemma {:induction false} AboutCase(s: string, at: nat, subs: int, e: Encoding)
    requires EncodingAt(s, at, subs, e) && e.About?
    ensures CharAt(s, at) == 'T' && CharAt(s, at + 1) == e.kind && e.kind in "VTIS" && at + 2 <= |s|
    ensures TypeAt(s, at + 2, subs, e.t) && |WriteEncoding(e)| == 2 + |WriteType(e.t)|
  {
    hide TypeFits, WriteType, EndsAt, Here, Apart;
    EndIsLoose(s, at + |WriteEncoding(e)|);
    FirstTwo(s, at, WriteEncoding(e));
    assert WriteEncoding(e) == ("T" + [e.kind]) + WriteType(e.t);
    LooseIsApart(e.t, CharAt(s, at + |WriteEncoding(e)|));
    Behind(s, at, subs, "T" + [e.kind], e.t);
    HereFits(s, at, WriteEncoding(e));
  }

  /** ... and about a name. */
  lemma {:induction false} AboutNameCase(s: string, at: nat, subs: int, e: Encoding)
    requires EncodingAt(s, at, subs, e) && e.AboutName?
    ensures CharAt(s, at) == (if e.front == "GV" then 'G' else 'T') && at + 2 <= |s|
    ensures CharAt(s, at + 1) == if e.front == "GV" then 'V' else if e.front == "TW" then 'W' else 'H'
    ensures NameAt(s, at + 2, subs, e.name) && |WriteEncoding(e)| == 2 + |WriteName(e.name)|
  {
    hide NameFits, WriteName, EndsAt, Here, NameApart;
    EndIsLoose(s, at + |WriteEncoding(e)|);
    assert e.front == "GV" || e.front == "TW" || e.front == "TH";
    Split(s, at, e.front, WriteName(e.name));
    FirstTwo(s, at, e.front);
    LooseIsNameApart(e.name, CharAt(s, at + |WriteEncoding(e)|));
    HereFits(s, at, e.front);
  }

  lemma {:induction false} LooseIsNameApart(n: Name, c: char)
    requires Loose(c)
    ensures NameApart(n, c)
  {
  }

  /** What a function's encoding says behind its name. */
  function FuncRest(e: Encoding): string
    requires e.Func?
  {
    (if e.returned then WriteType(e.ret) else "") + WriteParams(e.params)
  }

  lemma {:induction false} FuncBegins(s: string, at: nat, subs: int, e: Encoding)
    requires e.Func? && EncodingFits(e, subs) && Here(s, at, FuncRest(e))
    ensures CanBegin(CharAt(s, at)) && at < |s|
  {
    hide NameFits, TypesFit, ArgsFit, TypeFits, WriteType, WriteParams, CanBegin, Here, NoVoid;
    Split(s, at, if e.returned then WriteType(e.ret) else "", WriteParams(e.params));
    if e.returned {
      NextBegins(s, at, subs + NameAdds(e.name), e.ret);
    } else {
      assert WriteParams(e.params) + "" == WriteParams(e.params);
      ListBegins(s, at, subs + NameAdds(e.name), e.params, "");
    }
    InsideOf(s, at);
  }

  lemma {:induction false} InsideOf(s: string, at: nat)
    requires CanBegin(CharAt(s, at))
    ensures at < |s|
  {
  }

  lemma {:induction false} FuncCase(s: string, at: nat, subs: int, e: Encoding)
    requires e.Func? && EncodingFits(e, subs) && Here(s, at, FuncRest(e))
    requires e.params.Types? ==> EndsAt(s, at + |FuncRest(e)|)
    ensures var named := subs + NameAdds(e.name);
            var from, listed := at + (if e.returned then |WriteType(e.ret)| else 0), named + if e.returned then Adds(e.ret) else 0;
            && !Here(s, at, "Ua9enable_ifI") && (e.returned ==> TypeAt(s, at, named, e.ret))
            && (e.params.NoTypes? <==> CharAt(s, from) == 'v') && from < |s|
            && (e.params.Types? ==> TypesAt(s, from, listed, e.params) && NoVoid(e.params) && EndsAt(s, from + |WriteTypes(e.params)|))
            && |FuncRest(e)| == from - at + |WriteParams(e.params)|
  {
    hide NameFits, TypesFit, ArgsFit, TypeFits, WriteType, CanBegin, NoVoid, Here, Adds;
    var first := if e.returned then WriteType(e.ret) else "";
    FuncBegins(s, at, subs, e);
    NotEnableIf(s, at);
    Split(s, at, first, WriteParams(e.params));
    var from := at + |first|;
    var listed := subs + NameAdds(e.name) + if e.returned then Adds(e.ret) else 0;
    assert WriteParams(e.params) + "" == WriteParams(e.params);
    ListBegins(s, from, listed, e.params, "");
    InsideOf(s, from);
    if e.returned { LooseIsApart(e.ret, CharAt(s, from)); }
    if e.params.Types? {
      EndIsLoose(s, from + |WriteTypes(e.params)|);
      ListHead(s, from, listed, e.params);
    } else {
      FirstTwo(s, from, "v");
    }
  }

  lemma {:induction false} ListHead(s: string, at: nat, subs: int, ts: Types)
    requires TypesFit(ts, subs) && NoVoid(ts) && ts.Types? && Here(s, at, WriteTypes(ts))
    ensures CharAt(s, at) != 'v'
  {
    hide TypeFits, WriteType, CanBegin, Here;
    Split(s, at, WriteType(ts.head), WriteTypes(ts.tail));
    TypeHead(ts.head, subs);
    FirstTwo(s, at, WriteType(ts.head));
  }

  lemma {:induction false} NotEnableIf(s: string, at: nat)
    requires CanBegin(CharAt(s, at))
    ensures !Here(s, at, "Ua9enable_ifI")
  {
    if Here(s, at, "Ua9enable_ifI") { FirstTwo(s, at, "Ua9enable_ifI"); }
  }

  lemma {:induction false} EndIsLoose(s: string, at: nat)
    requires EndsAt(s, at)
    ensures Loose(CharAt(s, at))
  {
  }

  // ---------------------------------------------------------------- what a sub-parser sees

  predicate Compound(t: Type) { !t.Builtin? && !t.Extended? && !t.Known? && !t.Special? && !OnlyArgument(t) }

  lemma {:induction false} CompoundHead(s: string, at: nat, subs: int, t: Type)
    requires TypeAt(s, at, subs, t) && Compound(t)
    ensures var c := CharAt(s, at);
            && at < |s| && c != 'U' && c != 'T' && (t.Vendor? <==> c == 'u') && (t.PackOf? ==> c == 'D') && (c == 'D' ==> t.PackOf? || t.Function?) && (t.Array? <==> c == 'A') && (t.Member? <==> c == 'M')
            && (t.Prefixed? <==> c in "PROCG") && (c in "rVK" ==> t.Qualified? || t.Function?) && (c == 'F' ==> t.Function?)
            && (t.Qualified? ==> c in "rVK") && (t.Function? ==> c in "rVK" || c == 'F' || c == 'D')
  {
    hide CanBegin, Here, TypeFits, WriteType;
    assert TypeFits(t, subs) && Here(s, at, WriteType(t)) by { FitsHere(s, at, subs, t); }
    TypeHead(t, subs);
    FirstTwo(s, at, WriteType(t));
    if t.Class? || t.Qualified? || t.Function? { WrappedLetter(t, subs); } else { OwnLetter(t, subs); }
  }

  lemma {:induction false} FitsHere(s: string, at: nat, subs: int, t: Type)
    requires TypeAt(s, at, subs, t)
    ensures TypeFits(t, subs) && Here(s, at, WriteType(t))
  {
  }

  lemma {:induction false} WrappedLetter(t: Type, subs: int)
    requires TypeFits(t, subs) && (t.Class? || t.Qualified? || t.Function?) && WriteType(t) != ""
    ensures var c := WriteType(t)[0];
            if t.Class? then c == 'N' || c == 'S' || '1' <= c <= '9' else if t.Qualified? then c in "rVK" else c in "rVK" || c == 'F' || c == 'D'
  {
    hide TypesFit, ArgsFit, NameFits, WriteName, WriteTypes, WriteParams;
    if t.Class? { ClassLetters(t.name, subs); } else { QualifierLetters(t); }
  }

  lemma {:induction false} OwnLetter(t: Type, subs: int)
    requires TypeFits(t, subs) && Compound(t) && !(t.Class? || t.Qualified? || t.Function?) && WriteType(t) != ""
    ensures var c := WriteType(t)[0];
            match t
            case Vendor(_) => c == 'u'
            case PackOf(_) => c == 'D'
            case Array(_, _) => c == 'A'
            case Member(_, _) => c == 'M'
            case _ => c in "PROCG"
  {
    hide TypesFit, ArgsFit, NameFits, WriteName, WriteTypes, WriteParams;
  }

  lemma {:induction false} NestedFits(s: string, at: nat, subs: int, n: Name)
    requires NameAt(s, at, subs, n) && n.Nested?
    ensures NameFits(n, subs) && CompsFit(n.comps, subs, n.std) && n.comps.Comps? && NameAdds(n) == CompsAdd(n.comps) - 1
    ensures EndsWithArgs(n) == LastIsArgs(n.comps) && HasStructor(n) == AnyStructor(n.comps)
  {
  }

  lemma {:induction false} NestedFacts(s: string, at: nat, subs: int, n: Name)
    requires NameAt(s, at, subs, n) && n.Nested?
    ensures var q := at + 1 + QualLength(s, at + 1);
            var r := q + if CharAt(s, q) == 'O' || CharAt(s, q) == 'R' then 1 else 0;
            var from := r + if Here(s, r, "St") then 2 else 0;
            && CharAt(s, at) == 'N' && at < |s| && (n.std <==> Here(s, r, "St")) && n.comps.Comps?
            && CompsAt(s, from, subs, n.std, n.comps) && |WriteName(n)| == from - at + |WriteComps(n.comps)| + 1
    ensures NameAdds(n) == CompsAdd(n.comps) - 1 >= 0
    ensures EndsWithArgs(n) == LastIsArgs(n.comps) && HasStructor(n) == AnyStructor(n.comps)
  {
    hide NameAt, CompsAt, WriteName, WriteComps, CompsFit, Here, PartsOf, QualLength, CompsAdd, LastIsArgs, AnyStructor, NameAdds, NameFits;
    NestedFits(s, at, subs, n);
    NestedCase(s, at, subs, n);
    PartsCase(s, at + 1 + |QualLetters(n.quals)| + (if n.ref == NoRef then 0 else 1), subs, n);
    CompsAddNat(n.comps, subs, n.std);
  }

  lemma {:induction false} NoCompsLeft(s: string, at: nat, subs: int)
    ensures |WriteComps(NoComps)| == 0 && CompsAdd(NoComps) == 0 && !AnyStructor(NoComps)
    ensures CompsAt(s, at, subs, true, NoComps) ==> CharAt(s, at) == 'E'
  {
  }

  lemma {:induction false} FitsOf(s: string, at: nat, subs: int, t: Type)
    requires TypeAt(s, at, subs, t)
    ensures TypeFits(t, subs)
  {
  }

  /** Where the marks of a function type stand, the second of them, the F and the return type. */
  function MarksAt(s: string, at: nat): nat { at + QualLength(s, at) }

  function SafeAt(s: string, at: nat): nat { MarksAt(s, at) + if Here(s, MarksAt(s, at), "Do") then 2 else 0 }

  function LetterAt(s: string, at: nat): nat { SafeAt(s, at) + if Here(s, SafeAt(s, at), "Dx") then 2 else 0 }

  function ReturnAt(s: string, at: nat): nat { LetterAt(s, at) + if CharAt(s, LetterAt(s, at) + 1) == 'Y' then 2 else 1 }

  /** All that a function type is read by. */
  lemma {:induction false} FunctionFacts(s: string, at: nat, subs: int, t: Type)
    requires t.Function? && TypeAt(s, at, subs, t)
    ensures !Here(s, MarksAt(s, at), "DO") && !Here(s, MarksAt(s, at), "Dw") && CharAt(s, LetterAt(s, at)) == 'F' && LetterAt(s, at) < |s|
    ensures TypeAt(s, ReturnAt(s, at), subs, t.ret) && TypesFit(t.params, subs + Adds(t.ret)) && NoVoid(t.params)
    ensures Here(s, ReturnAt(s, at) + |WriteType(t.ret)|, WriteParams(t.params) + (RefLetter(t.ref) + "E"))
    ensures at + |WriteType(t)| == ReturnAt(s, at) + |WriteType(t.ret)| + |WriteParams(t.params)| + |RefLetter(t.ref)| + 1
    ensures Adds(t) == Adds(t.ret) + TypesAdd(t.params) + 1
  {
    hide TypeAt, WriteType, WriteParams, FunctionRest, Here, TypesFit, ArgsFit, TypeFits, NoVoid, Adds, QualLength, MarkLetters, QualLetters, RefLetter;
    FunctionCase(s, at, subs, t);
    FitsOf(s, at, subs, t);
    var spec := at + |QualLetters(t.quals)|;
    MarksSee(s, spec, t.marks, FunctionRest(t));
    FunctionRestCase(s, spec + |MarkLetters(t.marks)|, subs, t);
  }

  lemma {:induction false} NoQualifiers(s: string, at: nat)
    requires CharAt(s, at) == 'D'
    ensures QualLength(s, at) == 0
  {
  }

  /** What closes a parameter list. */
  predicate ClosedBy(s: string, at: nat, ref: RefQualifier) { Here(s, at, RefLetter(ref) + "E") }

  lemma {:induction false} ParamsOpen(s: string, at: nat, subs: int, ts: Types, ref: RefQualifier)
    requires TypesFit(ts, subs) && Here(s, at, WriteParams(ts) + (RefLetter(ref) + "E"))
    ensures ClosedBy(s, at + |WriteParams(ts)|, ref)
    ensures ts.NoTypes? ==> CharAt(s, at) == 'v' && |WriteParams(ts)| == 1 && TypesAdd(ts) == 0
    ensures ts.Types? ==> TypesAt(s, at, subs, ts) && |WriteParams(ts)| == |WriteTypes(ts)|
  {
    hide TypesFit, ArgsFit, WriteTypes, RefLetter;
    Split(s, at, WriteParams(ts), RefLetter(ref) + "E");
    CloserIsLoose(s, at + |WriteParams(ts)|, ref);
    if ts.NoTypes? { FirstTwo(s, at, "v"); }
  }

  lemma {:induction false} CloserIsLoose(s: string, at: nat, ref: RefQualifier)
    requires ClosedBy(s, at, ref)
    ensures Loose(CharAt(s, at)) && at < |s|
    ensures ref == NoRef ==> CharAt(s, at) == 'E'
    ensures ref == LRef ==> CharAt(s, at) == 'R' && Here(s, at, "RE")
    ensures ref == RRef ==> CharAt(s, at) == 'O' && Here(s, at, "OE")
  {
    FirstTwo(s, at, RefLetter(ref) + "E");
    assert "R" + "E" == "RE" && "O" + "E" == "OE";
  }

  lemma {:induction false} ListSees(s: string, at: nat, subs: int, left: Types, ref: RefQualifier)
    requires TypesAt(s, at, subs, left) && NoVoid(left) && ClosedBy(s, at + |WriteTypes(left)|, ref)
    ensures left.NoTypes? ==> |WriteTypes(left)| == 0 && TypesAdd(left) == 0 && |RefLetter(ref)| == (if ref == NoRef then 0 else 1)
                              && (ref == NoRef <==> CharAt(s, at) == 'E') && CharAt(s, at) != 'v'
                              && (ref == LRef <==> Here(s, at, "RE")) && (ref == RRef <==> Here(s, at, "OE"))
    ensures left.Types? ==> CharAt(s, at) != 'E' && CharAt(s, at) != 'v' && !Here(s, at, "RE") && !Here(s, at, "OE")
  {
    hide TypesFit, ArgsFit, TypeAt, Here, WriteType;
    if Here(s, at, "RE") { FirstTwo(s, at, "RE"); }
    if Here(s, at, "OE") { FirstTwo(s, at, "OE"); }
    if left.Types? {
      TypesStep(s, at, subs, left);
      BeginIsLoose(CharAt(s, at));
    } else {
      CloserIsLoose(s, at, ref);
    }
  }

  lemma {:induction false} NothingLeft(s: string, at: nat, subs: int, ref: RefQualifier)
    requires ClosedBy(s, at, ref)
    ensures TypesAt(s, at, subs, NoTypes) && NoVoid(NoTypes) && |WriteTypes(NoTypes)| == 0 && TypesAdd(NoTypes) == 0
  {
    CloserIsLoose(s, at, ref);
    HereFits(s, at, RefLetter(ref) + "E");
  }

  lemma {:induction false} StillNoVoid(ts: Types)
    requires NoVoid(ts) && ts.Types?
    ensures NoVoid(ts.tail) && ts.head != Builtin('v')
  {
  }

  lemma {:induction false} BoundSees(s: string, at: nat, bound: string, rest: string)
    requires Here(s, at, bound + ("_" + rest)) && AllDigits(bound)
    ensures if bound == "" then CharAt(s, at) == '_' else IsDigit(CharAt(s, at))
  {
    FirstTwo(s, at, bound + ("_" + rest));
  }

  lemma {:induction false} UnderscoreHere(s: string, at: nat, rest: string)
    requires Here(s, at, "_" + rest)
    ensures CharAt(s, at) == '_' && at < |s|
  {
    FirstTwo(s, at, "_" + rest);
  }

  lemma {:induction false} NotElaborated(s: string, at: nat)
    requires CharAt(s, at) != 'T'
    ensures !Here(s, at, "Ts") && !Here(s, at, "Tu") && !Here(s, at, "Te")
  {
    if Here(s, at, "Ts") { FirstTwo(s, at, "Ts"); }
    if Here(s, at, "Tu") { FirstTwo(s, at, "Tu"); }
    if Here(s, at, "Te") { FirstTwo(s, at, "Te"); }
  }

  lemma {:induction false} SomethingHere(s: string, at: nat)
    ensures IsBuiltin(CharAt(s, at)) ==> at < |s|
    ensures IsExtended(CharAt(s, at + 1)) ==> at + 2 <= |s|
  {
  }

  lemma {:induction false} QualLengthIs(s: string, at: nat)
    ensures QualLength(s, at) == var a := if CharAt(s, at) == 'r' then 1 else 0;
                                 var b := a + if CharAt(s, at + a) == 'V' then 1 else 0;
                                 b + if CharAt(s, at + b) == 'K' then 1 else 0
  {
  }

  lemma {:induction false} EndIs(s: string, at: nat)
    requires at <= |s|
    ensures EndsAt(s, at) <==> at == |s| || CharAt(s, at) in "E._"
  {
  }

  lemma {:induction false} FuncFacts(s: string, at: nat, subs: int, e: Encoding)
    requires EncodingAt(s, at, subs, e) && e.Func?
    ensures var end, named := at + |WriteName(e.name)|, subs + NameAdds(e.name);
            var from, listed := end + (if e.returned then |WriteType(e.ret)| else 0), named + if e.returned then Adds(e.ret) else 0;
            && e.returned == (EndsWithArgs(e.name) && !HasStructor(e.name))
            && !Here(s, end, "Ua9enable_ifI") && (e.returned ==> TypeAt(s, end, named, e.ret))
            && (e.params.NoTypes? <==> CharAt(s, from) == 'v') && from < |s|
            && (e.params.Types? ==> TypesAt(s, from, listed, e.params) && EndsAt(s, from + |WriteTypes(e.params)|))
            && |WriteEncoding(e)| == from - at + (if e.params.NoTypes? then 1 else |WriteTypes(e.params)|)
  {
    hide TypeAt, TypesAt, WriteName, WriteType, WriteTypes, Here, NameFits, TypeFits, TypesFit, ArgsFit, CanBegin, FuncRest;
    EncodingCase(s, at, subs, e);
    FuncCase(s, at + |WriteName(e.name)|, subs, e);
  }

  lemma {:induction false} SignatureSees(s: string, at: nat, subs: int, left: Types, end: nat)
    requires TypesAt(s, at, subs, left) && at + |WriteTypes(left)| == end && EndsAt(s, end)
    ensures left.NoTypes? <==> EndsAt(s, at)
  {
    hide TypesFit, ArgsFit, TypeAt, WriteType;
    if left.Types? {
      TypesStep(s, at, subs, left);
      BeginIsLoose(CharAt(s, at));
      InsideOf(s, at);
    }
  }

  lemma {:induction false} NoMoreTypes(ts: Types)
    requires ts.NoTypes?
    ensures |WriteTypes(ts)| == 0 && TypesAdd(ts) == 0
  {
  }

  lemma {:induction false} SubNumber(s: string, at: nat, subs: int, sub: Sub)
    requires SubAt(s, at, subs, sub) && sub.Numbered?
    ensures AllSeqDigits(sub.digits) && sub.digits != "" && (SeqNumberOf(sub.digits) + 1) % SizeSpan < subs
  {
  }

  lemma {:induction false} BeginsNoArg(c: char)
    requires CanBegin(c)
    ensures c != 'X' && c != 'J' && c != 'L'
  {
  }

  lemma {:induction false} ListSeesEnd(s: string, at: nat, subs: int, left: Types)
    requires ArgsListAt(s, at, subs, left)
    ensures left.NoTypes? <==> CharAt(s, at) == 'E'
    ensures left.NoTypes? ==> |WriteTypes(left)| == 0
  {
    hide ArgsFit, ArgAt, WriteType;
    if left.Types? { ArgsStep(s, at, subs, left); }
  }

  // ---------------------------------------------------------------- whole inputs

  /** An encoding behind `_Z` or `__Z`, and nothing more or a suffix behind a dot. */
  predicate Mangles(s: string, e: Encoding) {
    EncodingFits(e, 0) && (Suffixed(s, "_Z" + WriteEncoding(e)) || Suffixed(s, "__Z" + WriteEncoding(e)))
  }

  predicate Suffixed(s: string, text: string) { text <= s && (|s| == |text| || s[|text|] == '.') }

  lemma {:induction false} MangledSees(s: string, e: Encoding)
    requires Mangles(s, e)
    ensures var at := if Here(s, 0, "_Z") then 2 else 3;
            && (at == 3 ==> Here(s, 0, "__Z")) && EncodingAt(s, at, 0, e)
            && at + |WriteEncoding(e)| <= |s| && (at + |WriteEncoding(e)| == |s| || CharAt(s, at + |WriteEncoding(e)|) == '.')
  {
    hide EncodingFits, WriteEncoding;
    var short := Suffixed(s, "_Z" + WriteEncoding(e));
    var front := if short then "_Z" else "__Z";
    assert Here(s, 0, front + WriteEncoding(e));
    Split(s, 0, front, WriteEncoding(e));
    FirstTwo(s, 0, front);
    if Here(s, 0, "_Z") { FirstTwo(s, 0, "_Z"); }
  }

  lemma {:induction false} TypeSees(s: string, t: Type)
    requires TypeFits(t, 0) && s == WriteType(t)
    ensures TypeAt(s, 0, 0, t) && !Here(s, 0, "_Z") && !Here(s, 0, "__Z") && !Here(s, 0, "___Z") && !Here(s, 0, "____Z")
  {
    hide TypeFits, WriteType, CanBegin;
    TypeHead(t, 0);
    LooseIsApart(t, '\0');
    NoUnderscore(s);
  }

  lemma {:induction false} NoUnderscore(s: string)
    requires s != "" && CanBegin(s[0])
    ensures !Here(s, 0, "_Z") && !Here(s, 0, "__Z") && !Here(s, 0, "___Z") && !Here(s, 0, "____Z")
  {
    if Here(s, 0, "_Z") { FirstTwo(s, 0, "_Z"); }
    if Here(s, 0, "__Z") { FirstTwo(s, 0, "__Z"); }
    if Here(s, 0, "___Z") { FirstTwo(s, 0, "___Z"); }
    if Here(s, 0, "____Z") { FirstTwo(s, 0, "____Z"); }
  }
}
