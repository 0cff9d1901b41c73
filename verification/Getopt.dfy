/**
  The data and the element-level rules of the ANSI half of externals/getopt/getopt.c.

  A C string is the sequence of its characters; reading one past the end gives NUL, as
  `argv[i][1]` does in C.
 */
module GetoptRules {

  datatype Option<+T> = None | Some(value: T)

  /** A C string without its terminator. */
  type CString = string

  const Nul: char := '\0'

  function At(s: string, i: nat): char {
    if i < |s| then s[i] else Nul
  }

  /** `return c` and `optopt = c`: a (signed) char widened to int. */
  function Widen(c: char): int {
    if c as int < 128 then c as int else c as int - 256
  }

  const Question := Widen('?')
  const Colon := Widen(':')

  /** One row of the `option_a` table; `flag` names the int cell it points to, if any. */
  datatype LongOption = LongOption(name: CString, hasArg: int, flag: Option<nat>, val: int)

  datatype Ordering = RequireOrder | Permute | ReturnInOrder

  /** What the caller passes on every call of a run. */
  datatype Config = Config(optstring: CString, longopts: Option<seq<LongOption>>, longOnly: bool, posixlyCorrect: bool) {
    /** The option letters: one leading '-' or '+' is dropped. */
    function Letters(): (r: CString) {
      if At(optstring, 0) == '-' || At(optstring, 0) == '+' then optstring[1..] else optstring
    }

    function Ordering(): Ordering {
      if At(optstring, 0) == '-' then ReturnInOrder
      else if At(optstring, 0) == '+' || posixlyCorrect then RequireOrder
      else Permute
    }

    /** The `W;` extension is outside this model. */
    predicate NoW() {
      forall i :: 0 <= i < |Letters()| ==> !(Letters()[i] == 'W' && At(Letters(), i + 1) == ';')
    }

    /** What a missing argument is reported as. */
    function MissingCode(): int {
      if At(Letters(), 0) == ':' then Colon else Question
    }
  }

  /** What one call reports: the return value, optarg, optopt, the table index and the flag store. */
  datatype Event = Event(ret: int, optarg: Option<CString>, optopt: int, index: Option<nat>, store: Option<(nat, int)>)

  /** An event, what is left of the current element, and how far optind moved. */
  datatype Parsed = Parsed(event: Event, rest: CString, advance: nat)

  predicate IsOperand(s: CString) {
    At(s, 0) != '-' || At(s, 1) == Nul
  }

  // ---------------------------------------------------------------- long options

  datatype Match = NoMatch | Ambiguous | Unique(index: nat)

  /** The part of an element before '='. */
  function Key(s: CString): (k: CString)
    ensures k <= s && '=' !in k
    ensures |k| < |s| ==> s[|k|] == '='
  {
    if s == "" || s[0] == '=' then "" else
      var k := Key(s[1..]);
      assert s == [s[0]] + s[1..];
      [s[0]] + k
  }

  predicate Exact(opts: seq<LongOption>, key: CString, i: nat) {
    i < |opts| && opts[i].name == key
  }

  predicate Abbreviates(opts: seq<LongOption>, key: CString, i: nat) {
    i < |opts| && key <= opts[i].name
  }

  predicate Differ(a: LongOption, b: LongOption) {
    a.hasArg != b.hasArg || a.flag != b.flag || a.val != b.val
  }

  ghost predicate FirstExact(opts: seq<LongOption>, key: CString, i: nat) {
    Exact(opts, key, i) && forall j: nat :: j < i ==> !Exact(opts, key, j)
  }

  ghost predicate FirstAbbreviated(opts: seq<LongOption>, key: CString, i: nat) {
    Abbreviates(opts, key, i) && forall j: nat :: j < i ==> !Abbreviates(opts, key, j)
  }

  /** A later abbreviated option that disagrees with option `i`; any at all in long-only mode. */
  ghost predicate Clash(opts: seq<LongOption>, key: CString, longOnly: bool, i: nat) {
    i < |opts| && exists j: nat :: i < j && Abbreviates(opts, key, j) && (longOnly || Differ(opts[i], opts[j]))
  }

  /** The first exact name wins; otherwise the first abbreviated one, unless a later one clashes. */
  ghost predicate IsMatch(opts: seq<LongOption>, key: CString, longOnly: bool, m: Match) {
    match m
    case NoMatch => forall i: nat :: !Abbreviates(opts, key, i)
    case Unique(i) =>
      if exists e: nat :: Exact(opts, key, e) then FirstExact(opts, key, i)
      else FirstAbbreviated(opts, key, i) && !Clash(opts, key, longOnly, i)
    case Ambiguous =>
      && (forall e: nat :: !Exact(opts, key, e))
      && exists i: nat :: FirstAbbreviated(opts, key, i) && Clash(opts, key, longOnly, i)
  }

  lemma {:induction false} MatchIsDetermined(opts: seq<LongOption>, key: CString, longOnly: bool, m: Match, n: Match)
    requires IsMatch(opts, key, longOnly, m) && IsMatch(opts, key, longOnly, n)
    ensures m == n
  {
    assert forall j: nat :: Exact(opts, key, j) ==> Abbreviates(opts, key, j);
  }

  /** The table search of lines 203-225. */
  method FindLong(opts: seq<LongOption>, key: CString, longOnly: bool) returns (m: Match)
    ensures IsMatch(opts, key, longOnly, m)
  {
    var found: Option<nat> := None;
    var ambiguous := false;
    ghost var clash := 0;
    var i := 0;
    while i < |opts|
      invariant 0 <= i <= |opts|
      invariant forall j: nat :: j < i ==> !Exact(opts, key, j)
      invariant found.None? ==> !ambiguous && forall j: nat :: j < i ==> !Abbreviates(opts, key, j)
      invariant found.Some? ==> found.value < i && Abbreviates(opts, key, found.value)
      invariant found.Some? ==> forall j: nat :: j < found.value ==> !Abbreviates(opts, key, j)
      invariant found.Some? && !ambiguous ==>
        forall j: nat :: found.value < j < i && Abbreviates(opts, key, j) ==> !longOnly && !Differ(opts[found.value], opts[j])
      invariant ambiguous ==> found.Some? && found.value < clash < i && Abbreviates(opts, key, clash)
                              && (longOnly || Differ(opts[found.value], opts[clash]))
    {
      if key <= opts[i].name {
        assert Abbreviates(opts, key, i);
        if |key| == |opts[i].name| {
          assert FirstExact(opts, key, i);
          return Unique(i);
        } else if found.None? {
          found := Some(i);
        } else if longOnly || Differ(opts[found.value], opts[i]) {
          ambiguous := true;
          clash := i;
        }
      }
      i := i + 1;
    }
    if ambiguous {
      assert FirstAbbreviated(opts, key, found.value) && Clash(opts, key, longOnly, found.value);
      return Ambiguous;
    }
    m := if found.None? then NoMatch else Unique(found.value);
  }

  /** A match always exists, so the search result is a function of the table. */
  lemma {:induction false} MatchExists(opts: seq<LongOption>, key: CString, longOnly: bool)
    ensures exists m :: IsMatch(opts, key, longOnly, m)
  {
    if e: nat :| Exact(opts, key, e) {
      var i := FindFirstExact(opts, key, e);
      assert IsMatch(opts, key, longOnly, Unique(i));
    } else if a: nat :| Abbreviates(opts, key, a) {
      var i := FindFirstAbbreviated(opts, key, a);
      if Clash(opts, key, longOnly, i) {
        assert IsMatch(opts, key, longOnly, Ambiguous);
      } else {
        assert IsMatch(opts, key, longOnly, Unique(i));
      }
    } else {
      assert IsMatch(opts, key, longOnly, NoMatch);
    }
  }

  lemma {:induction false} FindFirstExact(opts: seq<LongOption>, key: CString, e: nat) returns (i: nat)
    requires Exact(opts, key, e)
    ensures FirstExact(opts, key, i)
  {
    i := 0;
    while !Exact(opts, key, i)
      invariant i <= e && forall j: nat :: j < i ==> !Exact(opts, key, j)
      decreases e - i
    { i := i + 1; }
  }

  lemma {:induction false} FindFirstAbbreviated(opts: seq<LongOption>, key: CString, e: nat) returns (i: nat)
    requires Abbreviates(opts, key, e)
    ensures FirstAbbreviated(opts, key, i)
  {
    i := 0;
    while !Abbreviates(opts, key, i)
      invariant i <= e && forall j: nat :: j < i ==> !Abbreviates(opts, key, j)
      decreases e - i
    { i := i + 1; }
  }

  ghost function MatchOf(opts: seq<LongOption>, key: CString, longOnly: bool): (m: Match)
    ensures IsMatch(opts, key, longOnly, m)
  {
    MatchExists(opts, key, longOnly);
    var m :| IsMatch(opts, key, longOnly, m);
    m
  }

  // ---------------------------------------------------------------- one option

  /** Whether the element is looked up in the long table first (line 187). */
  predicate TriesLong(cfg: Config, elem: CString) {
    cfg.longopts.Some? &&
    (At(elem, 1) == '-' || (cfg.longOnly && (At(elem, 2) != Nul || At(elem, 1) !in cfg.Letters())))
  }

  function Unrecognized(code: int, optopt: int): Parsed {
    Parsed(Event(code, None, optopt, None, None), "", 1)
  }

  /** Lines 201-315; None when a single-dash element falls through to the letters. */
  ghost function ParseLong(cfg: Config, elem: CString, text: CString, next: Option<CString>, optopt: int): Option<Parsed>
    requires cfg.longopts.Some? && text != ""
  {
    var opts := cfg.longopts.value;
    var key := Key(text);
    match MatchOf(opts, key, cfg.longOnly)
    case Ambiguous => Some(Unrecognized(Question, 0))
    case NoMatch =>
      if !cfg.longOnly || At(elem, 1) == '-' || text[0] !in cfg.Letters()
      then Some(Unrecognized(Question, 0)) else None
    case Unique(i) =>
      var o := opts[i];
      var done := (arg: Option<CString>, n: nat) =>
        Some(Parsed(Event(if o.flag.Some? then 0 else o.val, arg, optopt, Some(i),
                          if o.flag.Some? then Some((o.flag.value, o.val)) else None), "", n));
      if |key| < |text| then
        if o.hasArg != 0 then done(Some(text[|key| + 1..]), 1) else Some(Unrecognized(Question, o.val))
      else if o.hasArg == 1 then
        if next.Some? then done(next, 2) else Some(Unrecognized(cfg.MissingCode(), o.val))
      else done(None, 1)
  }

  datatype Arity = Unknown | Plain | Required | Optional

  /** What the option letters say about `c`: the first occurrence and the colons after it. */
  function ArityOf(letters: CString, c: char): Arity {
    if c == ':' || c == ';' then Unknown else FirstArity(letters, c)
  }

  function FirstArity(letters: CString, c: char): (a: Arity)
    ensures a == Unknown <==> c !in letters
  {
    if letters == "" then Unknown
    else if letters[0] != c then FirstArity(letters[1..], c)
    else if At(letters, 1) != ':' then Plain
    else if At(letters, 2) != ':' then Required
    else Optional
  }

  /** Lines 317-476. */
  function ParseShort(cfg: Config, text: CString, next: Option<CString>, optopt: int): (p: Parsed)
    requires text != ""
    ensures p.rest != "" ==> p.advance == 0 && |p.rest| < |text|
    ensures p.rest == "" ==> 1 <= p.advance <= if next.Some? then 2 else 1
  {
    var c, rest := text[0], text[1..];
    var code := Widen(c);
    var last := if rest == "" then 1 else 0;
    match ArityOf(cfg.Letters(), c)
    case Unknown => Parsed(Event(Question, None, code, None, None), rest, last)
    case Plain => Parsed(Event(code, None, optopt, None, None), rest, last)
    case Optional => Parsed(Event(code, if rest != "" then Some(rest) else None, optopt, None, None), "", 1)
    case Required =>
      if rest != "" then Parsed(Event(code, Some(rest), optopt, None, None), "", 1)
      else if next.Some? then Parsed(Event(code, next, optopt, None, None), "", 2)
      else Parsed(Event(cfg.MissingCode(), None, code, None, None), "", 1)
  }

  /** One option out of element `elem`, of which `text` is still unread, followed by `next`. */
  ghost function ParseOption(cfg: Config, elem: CString, text: CString, next: Option<CString>, optopt: int): (p: Parsed)
    requires text != ""
    ensures p.rest != "" ==> p.advance == 0 && |p.rest| < |text|
    ensures p.rest == "" ==> 1 <= p.advance <= if next.Some? then 2 else 1
  {
    if TriesLong(cfg, elem) && ParseLong(cfg, elem, text, next, optopt).Some?
    then ParseLong(cfg, elem, text, next, optopt).value
    else ParseShort(cfg, text, next, optopt)
  }

  // ---------------------------------------------------------------- the reference scan

  /** How one option is read: element, unread text, following element, optopt. */
  type Rule = (CString, CString, Option<CString>, int) -> Parsed

  /** Reading an option makes progress inside the element or past it, and never past the end. */
  ghost predicate Progress(rule: Rule) {
    forall elem, text, next, optopt :: text != "" ==>
      var p := rule(elem, text, next, optopt);
      && (p.rest != "" ==> p.advance == 0 && |p.rest| < |text|)
      && (p.rest == "" ==> 1 <= p.advance <= if next.Some? then 2 else 1)
  }

  ghost function RuleOf(cfg: Config): (rule: Rule)
    ensures Progress(rule)
  {
    (elem, text, next, optopt) =>
      if text == "" then Unrecognized(Question, 0) else ParseOption(cfg, elem, text, next, optopt)
  }

  /** Where reading starts inside a fresh option element (line 185). */
  function Start(dashes: bool, elem: CString): (t: CString)
    requires !IsOperand(elem) && elem != "--"
    ensures t != "" && |t| < |elem|
  {
    if dashes && elem[1] == '-' then elem[2..] else elem[1..]
  }

  /** Everything a run reports, the elements it uses up, and the operands it leaves. */
  datatype Outcome = Outcome(events: seq<Event>, used: seq<CString>, operands: seq<CString>)

  function Head(args: seq<CString>): Option<CString> {
    if args == [] then None else Some(args[0])
  }

  /**
    The left-to-right reading of `args` that never moves an element: `text` is the unread part of
    args[0] when an option cluster is pending.  `dashes` says whether there is a long-option table.
   */
  ghost function Scan(rule: Rule, dashes: bool, ord: Ordering, args: seq<CString>, text: CString, optopt: int): Outcome
    requires Progress(rule)
    decreases |args|, if text == "" && args != [] then |args[0]| else |text|
  {
    if args == [] then Outcome([], [], [])
    else if text == "" && IsOperand(args[0]) then
      match ord {
        case RequireOrder => Outcome([], [], args)
        case Permute =>
          var r := Scan(rule, dashes, ord, args[1..], "", optopt);
          r.(operands := [args[0]] + r.operands)
        case ReturnInOrder =>
          var r := Scan(rule, dashes, ord, args[1..], "", optopt);
          r.(events := [Event(1, Some(args[0]), optopt, None, None)] + r.events, used := [args[0]] + r.used)
      }
    else if text == "" && args[0] == "--" then Outcome([], ["--"], args[1..])
    else
      var start := if text == "" then Start(dashes, args[0]) else text;
      var p := rule(args[0], start, Head(args[1..]), optopt);
      var r := Scan(rule, dashes, ord, args[p.advance..], p.rest, p.event.optopt);
      Outcome([p.event] + r.events, args[..p.advance] + r.used, r.operands)
  }
}
