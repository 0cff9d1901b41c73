/**
  What command lines mean.  Every command line is a list of options, operands and faults written down in one of
  the ways described here, and it is read back as exactly that list.
 */
module GetoptRoundTrip {
  import opened GetoptRules
  import opened GetoptTheorems

  /** What an option element holds behind its dashes, or what is left of it. */
  datatype Text =
    | End
    | Letter(c: char, more: Text)                              // a letter without an argument, or an unknown one
    | Joined(c: char, arg: CString)                            // oARG
    | Alone(c: char)                                           // o, where its argument is optional
    | Next(c: char, arg: CString)                              // o ARG
    | Lacks(c: char)                                           // o as the last of the command line
    | Name(key: CString, index: nat, value: Option<CString>)   // name or name=ARG, perhaps abbreviated
    | NameNext(key: CString, index: nat, arg: CString)         // name ARG
    | NameLacks(key: CString, index: nat)                      // name as the last of the command line
    | Unlisted(text: CString)                                  // a name that is not in the table
    | Unclear(text: CString)                                   // an abbreviation of several names

  datatype Item =
    | Dashed(single: bool, text: Text)
    | Word(word: CString)

  // ---------------------------------------------------------------- how it is written

  function Spelled(t: Text): CString {
    match t
    case End => ""
    case Letter(c, more) => [c] + Spelled(more)
    case Joined(c, arg) => [c] + arg
    case Alone(c) => [c]
    case Next(c, _) => [c]
    case Lacks(c) => [c]
    case Name(key, _, value) => key + if value.Some? then "=" + value.value else ""
    case NameNext(key, _, _) => key
    case NameLacks(key, _) => key
    case Unlisted(text) => text
    case Unclear(text) => text
  }

  /** The element that follows, where an argument is one of its own. */
  function Follows(t: Text): seq<CString> {
    match t
    case Letter(_, more) => Follows(more)
    case Next(_, arg) => [arg]
    case NameNext(_, _, arg) => [arg]
    case _ => []
  }

  /** Nothing at all may follow. */
  predicate AtEnd(t: Text) {
    match t
    case Letter(_, more) => AtEnd(more)
    case Lacks(_) => true
    case NameLacks(_, _) => true
    case _ => false
  }

  function Element(single: bool, whole: CString): CString { (if single then "-" else "--") + whole }

  function Written(item: Item): seq<CString> {
    match item
    case Dashed(single, text) => [Element(single, Spelled(text))] + Follows(text)
    case Word(word) => [word]
  }

  /** A command line: its items, and `--` with the words behind it unless `end` is None. */
  function CommandLine(items: seq<Item>, end: Option<seq<CString>>): seq<CString> {
    if items != [] then Written(items[0]) + CommandLine(items[1..], end)
    else if end.Some? then ["--"] + end.value
    else []
  }

  // ---------------------------------------------------------------- what the option string and the table say

  function LettersOf(cfg: Config): CString {
    if cfg.optstring != "" && cfg.optstring[0] in "+-" then cfg.optstring[1..] else cfg.optstring
  }

  /** The first occurrence of a letter, and how many colons stand behind it. */
  predicate DeclaredAt(letters: CString, c: char, i: nat, arity: Arity) {
    && i < |letters| && letters[i] == c && c !in letters[..i]
    && match arity
       case Unknown => false
       case Plain => !(":" <= letters[i + 1..])
       case Required => ":" <= letters[i + 1..] && !("::" <= letters[i + 1..])
       case Optional => "::" <= letters[i + 1..]
  }

  ghost predicate Declared(cfg: Config, c: char, arity: Arity) {
    if arity == Unknown then c in ":;" || c !in LettersOf(cfg)
    else c !in ":;" && exists i: nat :: DeclaredAt(LettersOf(cfg), c, i, arity)
  }

  /** Whether the texts of an element are looked up in the table of names: always behind two dashes. */
  predicate LookedUp(cfg: Config, single: bool, whole: CString) {
    && cfg.longopts.Some?
    && (single ==> cfg.longOnly && (At(whole, 1) != Nul || At(whole, 0) !in LettersOf(cfg)))
  }

  ghost predicate Named(cfg: Config, key: CString, m: Match) {
    cfg.longopts.Some? && '=' !in key && IsMatch(cfg.longopts.value, key, cfg.longOnly, m)
  }

  ghost predicate NamesRow(cfg: Config, key: CString, i: nat) {
    cfg.longopts.Some? && i < |cfg.longopts.value| && Named(cfg, key, Unique(i))
  }

  /** A text is read as a letter where names are not looked up; behind one dash also where there is no such name. */
  ghost predicate AsLetter(cfg: Config, single: bool, lookedUp: bool, text: CString) {
    lookedUp ==> single && text != "" && text[0] in LettersOf(cfg) && Named(cfg, Key(text), NoMatch)
  }

  /** The option string and the table give the text this reading. */
  ghost predicate Fits(cfg: Config, single: bool, lookedUp: bool, t: Text) {
    match t
    case End => true
    case Letter(c, more) =>
      (Declared(cfg, c, Plain) || Declared(cfg, c, Unknown)) && AsLetter(cfg, single, lookedUp, Spelled(t)) && Fits(cfg, single, lookedUp, more)
    case Joined(c, arg) =>
      arg != "" && (Declared(cfg, c, Required) || Declared(cfg, c, Optional)) && AsLetter(cfg, single, lookedUp, Spelled(t))
    case Alone(c) => Declared(cfg, c, Optional) && AsLetter(cfg, single, lookedUp, Spelled(t))
    case Next(c, _) => Declared(cfg, c, Required) && AsLetter(cfg, single, lookedUp, Spelled(t))
    case Lacks(c) => Declared(cfg, c, Required) && AsLetter(cfg, single, lookedUp, Spelled(t))
    case Name(key, i, value) =>
      lookedUp && NamesRow(cfg, key, i) && Spelled(t) != "" && (value.None? ==> cfg.longopts.value[i].hasArg != 1)
    case NameNext(key, i, _) => lookedUp && NamesRow(cfg, key, i) && key != "" && cfg.longopts.value[i].hasArg == 1
    case NameLacks(key, i) => lookedUp && NamesRow(cfg, key, i) && key != "" && cfg.longopts.value[i].hasArg == 1
    case Unlisted(text) => lookedUp && text != "" && Named(cfg, Key(text), NoMatch) && (single ==> text[0] !in LettersOf(cfg))
    case Unclear(text) => lookedUp && text != "" && Named(cfg, Key(text), Ambiguous)
  }

  /** `last` says that nothing follows the item, not even `--`. */
  ghost predicate Writable(cfg: Config, item: Item, last: bool) {
    match item
    case Dashed(single, text) =>
      var whole := Spelled(text);
      && whole != "" && Fits(cfg, single, LookedUp(cfg, single, whole), text) && (AtEnd(text) ==> last)
      && (if single then whole[0] != Nul && whole != "-" && (cfg.longopts.Some? ==> whole[0] != '-') else cfg.longopts.Some?)
    case Word(word) => word == "" || word[0] != '-' || At(word, 1) == Nul
  }

  ghost predicate AllWritable(cfg: Config, items: seq<Item>, end: Option<seq<CString>>) {
    forall i :: 0 <= i < |items| ==> Writable(cfg, items[i], end.None? && i == |items| - 1)
  }

  // ---------------------------------------------------------------- what it means

  /** A missing argument is reported as ':' where the option string asks for that, and as '?' otherwise. */
  function Missing(cfg: Config): int { if ":" <= LettersOf(cfg) then 58 else 63 }

  function Found(o: LongOption, i: nat, arg: Option<CString>, optopt: int): Event {
    match o.flag
    case Some(cell) => Event(0, arg, optopt, Some(i), Some((cell, o.val)))
    case None => Event(o.val, arg, optopt, Some(i), None)
  }

  ghost function Reported(cfg: Config, single: bool, lookedUp: bool, t: Text, optopt: int): seq<Event>
    requires Fits(cfg, single, lookedUp, t)
  {
    match t
    case End => []
    case Letter(c, more) =>
      if Declared(cfg, c, Unknown)
      then [Event(63, None, Widen(c), None, None)] + Reported(cfg, single, lookedUp, more, Widen(c))
      else [Event(Widen(c), None, optopt, None, None)] + Reported(cfg, single, lookedUp, more, optopt)
    case Joined(c, arg) => [Event(Widen(c), Some(arg), optopt, None, None)]
    case Alone(c) => [Event(Widen(c), None, optopt, None, None)]
    case Next(c, arg) => [Event(Widen(c), Some(arg), optopt, None, None)]
    case Lacks(c) => [Event(Missing(cfg), None, Widen(c), None, None)]
    case Name(_, i, value) =>
      var o := cfg.longopts.value[i];
      if value.Some? && o.hasArg == 0 then [Event(63, None, o.val, None, None)] else [Found(o, i, value, optopt)]
    case NameNext(_, i, arg) => [Found(cfg.longopts.value[i], i, Some(arg), optopt)]
    case NameLacks(_, i) => [Event(Missing(cfg), None, cfg.longopts.value[i].val, None, None)]
    case Unlisted(_) => [Event(63, None, 0, None, None)]
    case Unclear(_) => [Event(63, None, 0, None, None)]
  }

  /** `optopt` keeps the value of the last fault. */
  function LastOptopt(events: seq<Event>, optopt: int): int {
    if events == [] then optopt else events[|events| - 1].optopt
  }

  ghost function ItemReported(cfg: Config, item: Item, optopt: int): seq<Event>
    requires item.Dashed? && Fits(cfg, item.single, LookedUp(cfg, item.single, Spelled(item.text)), item.text)
  {
    Reported(cfg, item.single, LookedUp(cfg, item.single, Spelled(item.text)), item.text, optopt)
  }

  /** A leading '-' reports operands where they stand; a leading '+', or the environment, stops at the first. */
  ghost function Meaning(cfg: Config, items: seq<Item>, end: Option<seq<CString>>, optopt: int): Outcome
    requires AllWritable(cfg, items, end)
  {
    if items == [] then (if end.Some? then Outcome([], ["--"], end.value) else Outcome([], [], []))
    else if items[0].Dashed? then
      var events := ItemReported(cfg, items[0], optopt);
      var r := Meaning(cfg, items[1..], end, LastOptopt(events, optopt));
      Outcome(events + r.events, Written(items[0]) + r.used, r.operands)
    else
      var r := Meaning(cfg, items[1..], end, optopt);
      if "-" <= cfg.optstring then
        Outcome([Event(1, Some(items[0].word), optopt, None, None)] + r.events, [items[0].word] + r.used, r.operands)
      else if "+" <= cfg.optstring || cfg.posixlyCorrect then Outcome([], [], CommandLine(items, end))
      else r.(operands := [items[0].word] + r.operands)
  }

  ghost function ReadOn(cfg: Config, args: seq<CString>, text: CString, optopt: int): Outcome {
    Scan(RuleOf(cfg), cfg.longopts.Some?, cfg.Ordering(), args, text, optopt)
  }

  // ---------------------------------------------------------------- one step

  /** A fresh option element is read from its start. */
  lemma {:induction false} ReadFromStart(cfg: Config, args: seq<CString>, optopt: int)
    requires args != [] && !IsOperand(args[0]) && args[0] != "--"
    ensures ReadOn(cfg, args, "", optopt) == ReadOn(cfg, args, Start(cfg.longopts.Some?, args[0]), optopt)
  {
    hide RuleOf, Progress;
  }

  /** The last option of an element, with its argument if that is the next one. */
  lemma {:induction false} ReadLast(cfg: Config, w: seq<CString>, rest: seq<CString>, text: CString, p: Parsed, optopt: int)
    requires 1 <= |w| <= 2 && text != ""
    requires p == ParseOption(cfg, w[0], text, Head((w + rest)[1..]), optopt)
    requires p.rest == "" && p.advance == |w|
    ensures var r := ReadOn(cfg, rest, "", p.event.optopt);
            ReadOn(cfg, w + rest, text, optopt) == Outcome([p.event] + r.events, w + r.used, r.operands)
  {
    hide ParseOption, Progress;
    var args := w + rest;
    assert args[0] == w[0] && args[|w|..] == rest && args[..|w|] == w;
  }

  /** An option of an element that holds more behind it. */
  lemma {:induction false} ReadNext(cfg: Config, args: seq<CString>, text: CString, p: Parsed, optopt: int)
    requires args != [] && text != ""
    requires p == ParseOption(cfg, args[0], text, Head(args[1..]), optopt)
    requires p.rest != ""
    ensures var r := ReadOn(cfg, args, p.rest, p.event.optopt);
            ReadOn(cfg, args, text, optopt) == r.(events := [p.event] + r.events)
  {
    hide ParseOption, Progress;
    assert args[0..] == args && args[..0] == [];
    var r := ReadOn(cfg, args, p.rest, p.event.optopt);
    assert [] + r.used == r.used;
  }

  // ---------------------------------------------------------------- the rules, in these terms

  lemma {:induction false} SameLetters(cfg: Config)
    ensures LettersOf(cfg) == cfg.Letters()
  {
  }

  lemma {:induction false} FirstArityAt(letters: CString, c: char, i: nat, arity: Arity)
    requires DeclaredAt(letters, c, i, arity)
    ensures FirstArity(letters, c) == arity
  {
    if i > 0 {
      assert letters[1..][..i - 1] == letters[..i][1..] && letters[1..][i..] == letters[i + 1..];
      FirstArityAt(letters[1..], c, i - 1, arity);
    }
  }

  /** ... so each letter is declared in one way. */
  lemma {:induction false} ArityMeans(cfg: Config, c: char, arity: Arity)
    requires Declared(cfg, c, arity)
    ensures ArityOf(cfg.Letters(), c) == arity
  {
    SameLetters(cfg);
    if arity != Unknown {
      var i: nat :| DeclaredAt(LettersOf(cfg), c, i, arity);
      FirstArityAt(LettersOf(cfg), c, i, arity);
    }
  }

  lemma {:induction false} FindDeclaration(letters: CString, c: char) returns (i: nat)
    requires c in letters
    ensures DeclaredAt(letters, c, i, FirstArity(letters, c))
  {
    if letters[0] == c {
      i := 0;
    } else {
      i := FindDeclaration(letters[1..], c);
      assert letters[..i + 1] == [letters[0]] + letters[1..][..i] && letters[1..][i + 1..] == letters[i + 2..];
      i := i + 1;
    }
  }

  lemma {:induction false} IsDeclared(cfg: Config, c: char)
    ensures Declared(cfg, c, ArityOf(cfg.Letters(), c))
  {
    SameLetters(cfg);
    if ArityOf(cfg.Letters(), c) != Unknown {
      var i := FindDeclaration(cfg.Letters(), c);
    }
  }

  lemma {:induction false} SameLookup(cfg: Config, single: bool, whole: CString)
    requires whole != "" && (!single || cfg.longopts.None? || whole[0] != '-')
    ensures LookedUp(cfg, single, whole) == TriesLong(cfg, Element(single, whole))
    ensures single && cfg.longopts.Some? ==> At(Element(single, whole), 1) != '-'
    ensures !single ==> At(Element(single, whole), 1) == '-'
  {
    SameLetters(cfg);
    assert single ==> Element(single, whole)[1..] == whole;
  }

  /** An element of which `text` is read: behind its dashes, or later in it. */
  ghost predicate Inside(cfg: Config, single: bool, lookedUp: bool, elem: CString) {
    && lookedUp == TriesLong(cfg, elem) && (!single ==> At(elem, 1) == '-')
    && (single && cfg.longopts.Some? ==> At(elem, 1) != '-')
  }

  lemma {:induction false} MatchIs(cfg: Config, key: CString, m: Match)
    requires Named(cfg, key, m)
    ensures MatchOf(cfg.longopts.value, key, cfg.longOnly) == m
  {
    hide MatchOf, IsMatch;
    MatchOfMeets(cfg.longopts.value, key, cfg.longOnly);
    MatchIsDetermined(cfg.longopts.value, key, cfg.longOnly, m, MatchOf(cfg.longopts.value, key, cfg.longOnly));
  }

  /** What is read as a letter. */
  lemma {:induction false} ReadAsLetter(cfg: Config, single: bool, lookedUp: bool, elem: CString, text: CString, next: Option<CString>, optopt: int)
    requires text != "" && Inside(cfg, single, lookedUp, elem) && AsLetter(cfg, single, lookedUp, text)
    ensures ParseOption(cfg, elem, text, next, optopt) == ParseShort(cfg, text, next, optopt)
  {
    hide MatchOf, ParseShort, Key, Named;
    SameLetters(cfg);
    if lookedUp { MatchIs(cfg, Key(text), NoMatch); }
  }

  /** What is read as a name. */
  lemma {:induction false} ReadAsName(cfg: Config, single: bool, elem: CString, text: CString, next: Option<CString>, optopt: int)
    requires text != "" && Inside(cfg, single, true, elem)
    requires ParseLong(cfg, elem, text, next, optopt).Some?
    ensures ParseOption(cfg, elem, text, next, optopt) == ParseLong(cfg, elem, text, next, optopt).value
  {
    hide ParseLong;
  }

  lemma {:induction false} KeyOfName(name: CString, tail: CString)
    requires '=' !in name && (tail == "" || tail[0] == '=')
    ensures Key(name + tail) == name
  {
    if name != "" {
      assert (name + tail)[1..] == name[1..] + tail;
      KeyOfName(name[1..], tail);
    } else {
      assert name + tail == tail;
    }
  }

  /** Whatever names the row, exactly or by a part of its name, reports it or its fault. */
  lemma {:induction false} LongReports(cfg: Config, single: bool, elem: CString, t: Text, next: Option<CString>, optopt: int)
    requires Inside(cfg, single, true, elem) && Fits(cfg, single, true, t) && (t.Name? || t.NameNext? || t.NameLacks?)
    requires (t.NameNext? ==> next == Some(t.arg)) && (t.NameLacks? ==> next == None)
    ensures Spelled(t) != "" && [ParseOption(cfg, elem, Spelled(t), next, optopt).event] == Reported(cfg, single, true, t, optopt)
    ensures var p := ParseOption(cfg, elem, Spelled(t), next, optopt); p.rest == "" && p.advance == 1 + |Follows(t)|
  {
    hide MatchOf, Named, ParseOption, Inside;
    var text := Spelled(t);
    NamedKey(cfg, t.key, Unique(t.index));
    KeyOfSpelled(t);
    MatchIs(cfg, t.key, Unique(t.index));
    SameLetters(cfg);
    if t.Name? && t.value.Some? { assert text[|t.key| + 1..] == t.value.value; }
    ReadAsName(cfg, single, elem, text, next, optopt);
  }

  /** A name that is not in the table, or could be several. */
  lemma {:induction false} NoNameReports(cfg: Config, single: bool, elem: CString, t: Text, next: Option<CString>, optopt: int)
    requires Inside(cfg, single, true, elem) && Fits(cfg, single, true, t) && (t.Unlisted? || t.Unclear?)
    ensures Spelled(t) != "" && [ParseOption(cfg, elem, Spelled(t), next, optopt).event] == Reported(cfg, single, true, t, optopt)
    ensures var p := ParseOption(cfg, elem, Spelled(t), next, optopt); p.rest == "" && p.advance == 1 + |Follows(t)|
  {
    hide MatchOf, Named, ParseOption, TriesLong;
    MatchIs(cfg, Key(t.text), if t.Unlisted? then NoMatch else Ambiguous);
    SameLetters(cfg);
    ReadAsName(cfg, single, elem, t.text, next, optopt);
  }

  lemma {:induction false} NamedKey(cfg: Config, key: CString, m: Match)
    requires Named(cfg, key, m)
    ensures '=' !in key
  {
  }

  lemma {:induction false} KeyOfSpelled(t: Text)
    requires (t.Name? || t.NameNext? || t.NameLacks?) && '=' !in t.key
    ensures Key(Spelled(t)) == t.key
  {
    KeyOfName(t.key, if t.Name? && t.value.Some? then "=" + t.value.value else "");
    assert t.key + "" == t.key;
  }

  /** A letter: what it reports, and what is left behind it. */
  lemma {:induction false} LetterReports(cfg: Config, single: bool, lookedUp: bool, elem: CString, t: Text, next: Option<CString>, optopt: int)
    requires Inside(cfg, single, lookedUp, elem) && Fits(cfg, single, lookedUp, t)
    requires t.Letter? || t.Joined? || t.Alone? || t.Next? || t.Lacks?
    requires (t.Next? ==> next == Some(t.arg)) && (t.Lacks? ==> next == None)
    ensures Spelled(t) != ""
    ensures var p := ParseOption(cfg, elem, Spelled(t), next, optopt);
            if t.Letter? then
              && p.rest == Spelled(t.more) && (p.rest == "" ==> p.advance == 1)
              && Reported(cfg, single, lookedUp, t, optopt) == [p.event] + Reported(cfg, single, lookedUp, t.more, p.event.optopt)
            else p.rest == "" && p.advance == 1 + |Follows(t)| && Reported(cfg, single, lookedUp, t, optopt) == [p.event]
  {
    hide ParseOption, AsLetter, Declared;
    var text := Spelled(t);
    SameLetters(cfg);
    ReadAsLetter(cfg, single, lookedUp, elem, text, next, optopt);
    assert text[0] == t.c;
    assert text[1..] == if t.Letter? then Spelled(t.more) else if t.Joined? then t.arg else "";
    KnownArity(cfg, t.c);
    assert Widen('?') == 63 && Widen(':') == 58;
  }

  lemma {:induction false} KnownArity(cfg: Config, c: char)
    ensures forall arity :: Declared(cfg, c, arity) ==> ArityOf(cfg.Letters(), c) == arity
  {
    forall arity | Declared(cfg, c, arity) ensures ArityOf(cfg.Letters(), c) == arity { ArityMeans(cfg, c, arity); }
  }

  lemma {:induction false} SpelledEmpty(cfg: Config, single: bool, lookedUp: bool, t: Text)
    requires Fits(cfg, single, lookedUp, t)
    ensures Spelled(t) == "" <==> t == End
  {
  }

  // ---------------------------------------------------------------- elements

  /** An option element from some place in it on, in front of the rest of a command line. */
  lemma {:induction false} ReadText(cfg: Config, single: bool, lookedUp: bool, elem: CString, t: Text, rest: seq<CString>, optopt: int)
    requires Inside(cfg, single, lookedUp, elem) && Fits(cfg, single, lookedUp, t) && t != End && (AtEnd(t) ==> rest == [])
    ensures var events := Reported(cfg, single, lookedUp, t, optopt);
            var r := ReadOn(cfg, rest, "", LastOptopt(events, optopt));
            ReadOn(cfg, [elem] + Follows(t) + rest, Spelled(t), optopt)
            == Outcome(events + r.events, [elem] + Follows(t) + r.used, r.operands)
    decreases t
  {
    hide ParseOption, ReadOn, Fits, Inside, Reported, LastOptopt, Spelled;
    if t.Letter? {
      var w := [elem] + Follows(t);
      var next := Head((w + rest)[1..]);
      InnerFits(cfg, single, lookedUp, t);
      SpelledEmpty(cfg, single, lookedUp, t.more);
      LetterReports(cfg, single, lookedUp, elem, t, next, optopt);
      var p := ParseOption(cfg, elem, Spelled(t), next, optopt);
      if t.more == End {
        NothingReported(cfg, single, lookedUp, p.event.optopt);
        OptoptAfter(p.event, [], optopt);
        assert [p.event] + [] == [p.event];
        assert Follows(t.more) == [] && w == [elem];
        ReadLast(cfg, w, rest, Spelled(t), p, optopt);
      } else {
        ReadText(cfg, single, lookedUp, elem, t.more, rest, p.event.optopt);
        SomethingReported(cfg, single, lookedUp, t.more, p.event.optopt);
        OptoptAfter(p.event, Reported(cfg, single, lookedUp, t.more, p.event.optopt), optopt);
        ReadNext(cfg, w + rest, Spelled(t), p, optopt);
      }
    } else {
      ReadWhole(cfg, single, lookedUp, elem, t, rest, optopt);
    }
  }

  lemma {:induction false} OptoptAfter(e: Event, events: seq<Event>, optopt: int)
    ensures LastOptopt([e] + events, optopt) == LastOptopt(events, e.optopt) && LastOptopt([], e.optopt) == e.optopt
    ensures forall more: seq<Event> :: [e] + (events + more) == [e] + events + more
  {
  }

  /** A text that is read in one piece. */
  lemma {:induction false} ReadWhole(cfg: Config, single: bool, lookedUp: bool, elem: CString, t: Text, rest: seq<CString>, optopt: int)
    requires Inside(cfg, single, lookedUp, elem) && Fits(cfg, single, lookedUp, t) && t != End && !t.Letter? && (AtEnd(t) ==> rest == [])
    ensures var events := Reported(cfg, single, lookedUp, t, optopt);
            var r := ReadOn(cfg, rest, "", LastOptopt(events, optopt));
            ReadOn(cfg, [elem] + Follows(t) + rest, Spelled(t), optopt)
            == Outcome(events + r.events, [elem] + Follows(t) + r.used, r.operands)
  {
    hide ParseOption, ReadOn, Fits, Inside, Reported;
    var w, text := [elem] + Follows(t), Spelled(t);
    var next := Head((w + rest)[1..]);
    assert (w + rest)[1..] == Follows(t) + rest;
    NextIs(t, rest);
    if t.Name? || t.NameNext? || t.NameLacks? {
      LookedUpForNames(cfg, single, lookedUp, t);
      LongReports(cfg, single, elem, t, next, optopt);
    } else if t.Unlisted? || t.Unclear? {
      LookedUpForNames(cfg, single, lookedUp, t);
      NoNameReports(cfg, single, elem, t, next, optopt);
    } else {
      LetterReports(cfg, single, lookedUp, elem, t, next, optopt);
    }
    ReadLast(cfg, w, rest, text, ParseOption(cfg, elem, text, next, optopt), optopt);
  }

  lemma {:induction false} NextIs(t: Text, rest: seq<CString>)
    requires !t.Letter? && (AtEnd(t) ==> rest == [])
    ensures |Follows(t)| <= 1
    ensures t.Next? || t.NameNext? ==> Head(Follows(t) + rest) == Some(t.arg)
    ensures t.Lacks? || t.NameLacks? ==> Head(Follows(t) + rest) == None
  {
  }

  lemma {:induction false} LookedUpForNames(cfg: Config, single: bool, lookedUp: bool, t: Text)
    requires Fits(cfg, single, lookedUp, t) && (t.Name? || t.NameNext? || t.NameLacks? || t.Unlisted? || t.Unclear?)
    ensures lookedUp
  {
  }

  lemma {:induction false} InnerFits(cfg: Config, single: bool, lookedUp: bool, t: Text)
    requires Fits(cfg, single, lookedUp, t) && t.Letter?
    ensures Fits(cfg, single, lookedUp, t.more)
  {
  }

  lemma {:induction false} NothingReported(cfg: Config, single: bool, lookedUp: bool, optopt: int)
    ensures Fits(cfg, single, lookedUp, End) && Reported(cfg, single, lookedUp, End, optopt) == []
  {
  }

  lemma {:induction false} SomethingReported(cfg: Config, single: bool, lookedUp: bool, t: Text, optopt: int)
    requires Fits(cfg, single, lookedUp, t) && t != End
    ensures Reported(cfg, single, lookedUp, t, optopt) != []
  {
  }

  /** One option element, with its faults, in front of the rest of a command line. */
  lemma {:induction false} ReadItem(cfg: Config, item: Item, rest: seq<CString>, optopt: int)
    requires Writable(cfg, item, rest == []) && item.Dashed?
    ensures var events := ItemReported(cfg, item, optopt);
            var r := ReadOn(cfg, rest, "", LastOptopt(events, optopt));
            ReadOn(cfg, Written(item) + rest, "", optopt) == Outcome(events + r.events, Written(item) + r.used, r.operands)
  {
    hide ReadOn, Fits, Reported, LookedUp;
    var whole := Spelled(item.text);
    var elem := Element(item.single, whole);
    SameLookup(cfg, item.single, whole);
    assert elem[|elem| - |whole|..] == whole;
    assert item.single ==> elem[1] == whole[0];
    ReadFromStart(cfg, Written(item) + rest, optopt);
    ReadText(cfg, item.single, LookedUp(cfg, item.single, whole), elem, item.text, rest, optopt);
  }

  lemma {:induction false} ReadWord(cfg: Config, word: CString, rest: seq<CString>, optopt: int)
    requires Writable(cfg, Word(word), false)
    ensures var r := ReadOn(cfg, rest, "", optopt);
            ReadOn(cfg, [word] + rest, "", optopt)
            == if "-" <= cfg.optstring then
                 Outcome([Event(1, Some(word), optopt, None, None)] + r.events, [word] + r.used, r.operands)
               else if "+" <= cfg.optstring || cfg.posixlyCorrect then Outcome([], [], [word] + rest)
               else r.(operands := [word] + r.operands)
  {
    hide RuleOf, Progress;
    assert ([word] + rest)[1..] == rest;
  }

  /**
    Reading a written command line gives back its items: options and operands in order, and for each fault the event
    it is reported by, for every option string and every table.
   */
  lemma {:induction false} RoundTrip(cfg: Config, items: seq<Item>, end: Option<seq<CString>>, optopt: int)
    requires AllWritable(cfg, items, end)
    ensures ReadOn(cfg, CommandLine(items, end), "", optopt) == Meaning(cfg, items, end, optopt)
  {
    hide ReadOn, Writable, ItemReported, Written;
    if items == [] {
      ReadEnd(cfg, end, optopt);
    } else {
      var rest := CommandLine(items[1..], end);
      OnlyLastEnds(items, end);
      assert Writable(cfg, items[0], end.None? && 0 == |items| - 1);
      MoreWritable(cfg, items[0], end.None? && 0 == |items| - 1, rest == []);
      if items[0].Dashed? {
        FitsItem(cfg, items[0], rest == []);
        RoundTrip(cfg, items[1..], end, LastOptopt(ItemReported(cfg, items[0], optopt), optopt));
        ReadItem(cfg, items[0], rest, optopt);
      } else {
        MoreWritable(cfg, items[0], rest == [], false);
        RoundTrip(cfg, items[1..], end, optopt);
        ReadWord(cfg, items[0].word, rest, optopt);
        assert Written(items[0]) == [items[0].word] by { WrittenWord(items[0]); }
      }
    }
  }

  lemma {:induction false} WrittenWord(item: Item)
    requires item.Word?
    ensures Written(item) == [item.word]
  {
  }

  lemma {:induction false} FitsItem(cfg: Config, item: Item, last: bool)
    requires Writable(cfg, item, last) && item.Dashed?
    ensures Fits(cfg, item.single, LookedUp(cfg, item.single, Spelled(item.text)), item.text)
  {
  }

  lemma {:induction false} OnlyLastEnds(items: seq<Item>, end: Option<seq<CString>>)
    requires items != []
    ensures CommandLine(items[1..], end) == [] <==> end.None? && 0 == |items| - 1
  {
    if |items| > 1 { assert Written(items[1..][0]) != []; }
  }

  lemma {:induction false} MoreWritable(cfg: Config, item: Item, last: bool, last': bool)
    requires Writable(cfg, item, last) && (item.Word? || (last ==> last'))
    ensures Writable(cfg, item, last')
  {
    hide Fits;
  }

  lemma {:induction false} ReadEnd(cfg: Config, end: Option<seq<CString>>, optopt: int)
    ensures ReadOn(cfg, CommandLine([], end), "", optopt) == Meaning(cfg, [], end, optopt)
  {
    hide RuleOf, Progress;
    if end.Some? { assert (["--"] + end.value)[1..] == end.value; }
  }

  // ---------------------------------------------------------------- every command line is a written one

  /** What stands in an option element from some place on. */
  lemma {:induction false} Spell(cfg: Config, single: bool, lookedUp: bool, text: CString, following: seq<CString>) returns (t: Text)
    requires text != "" && (lookedUp ==> cfg.longopts.Some?) && (!single ==> lookedUp)
    ensures Fits(cfg, single, lookedUp, t) && Spelled(t) == text
    ensures |Follows(t)| <= |following| && following[..|Follows(t)|] == Follows(t) && (AtEnd(t) ==> following == [])
    decreases |text|, 1
  {
    hide Named, Declared;
    if lookedUp {
      var key := Key(text);
      var m := MatchOf(cfg.longopts.value, key, cfg.longOnly);
      assert Named(cfg, key, m) by { IsNamed(cfg, key); }
      if m.Ambiguous? {
        t := Unclear(text);
      } else if m.NoMatch? {
        if single && text[0] in LettersOf(cfg) { t := SpellLetter(cfg, single, lookedUp, text, following); } else { t := Unlisted(text); }
      } else {
        t := SpellName(cfg, single, text, m.index, following);
      }
    } else {
      t := SpellLetter(cfg, single, lookedUp, text, following);
    }
  }

  lemma {:induction false} IsNamed(cfg: Config, key: CString)
    requires cfg.longopts.Some? && '=' !in key
    ensures var m := MatchOf(cfg.longopts.value, key, cfg.longOnly); Named(cfg, key, m) && (m.Unique? ==> m.index < |cfg.longopts.value|)
  {
    hide MatchOf;
    MatchOfMeets(cfg.longopts.value, key, cfg.longOnly);
  }

  lemma {:induction false} SpellName(cfg: Config, single: bool, text: CString, i: nat, following: seq<CString>) returns (t: Text)
    requires text != "" && cfg.longopts.Some? && MatchOf(cfg.longopts.value, Key(text), cfg.longOnly) == Unique(i)
    ensures Fits(cfg, single, true, t) && Spelled(t) == text
    ensures |Follows(t)| <= |following| && following[..|Follows(t)|] == Follows(t) && (AtEnd(t) ==> following == [])
  {
    hide Named, MatchOf;
    var key := Key(text);
    IsNamed(cfg, key);
    if |key| < |text| {
      assert text == key + ("=" + text[|key| + 1..]);
      t := Name(key, i, Some(text[|key| + 1..]));
    } else {
      assert key == text && key + "" == text;
      if cfg.longopts.value[i].hasArg != 1 {
        t := Name(key, i, None);
      } else if following == [] {
        t := NameLacks(key, i);
      } else {
        t := NameNext(key, i, following[0]);
      }
    }
  }

  lemma {:induction false} SpellLetter(cfg: Config, single: bool, lookedUp: bool, text: CString, following: seq<CString>) returns (t: Text)
    requires text != "" && AsLetter(cfg, single, lookedUp, text) && (lookedUp ==> cfg.longopts.Some?) && (!single ==> lookedUp)
    ensures Fits(cfg, single, lookedUp, t) && Spelled(t) == text
    ensures |Follows(t)| <= |following| && following[..|Follows(t)|] == Follows(t) && (AtEnd(t) ==> following == [])
    decreases |text|, 0
  {
    hide Declared, AsLetter;
    var c, arg := text[0], text[1..];
    IsDeclared(cfg, c);
    assert text == [c] + arg;
    var arity := ArityOf(cfg.Letters(), c);
    if arity == Unknown || arity == Plain {
      var more := End;
      if arg != "" { more := Spell(cfg, single, lookedUp, arg, following); }
      t := Letter(c, more);
      assert Spelled(t) == text && Fits(cfg, single, lookedUp, more);
      assert Follows(t) == Follows(more) && AtEnd(t) == AtEnd(more);
    } else {
      t := SpellWithArgument(cfg, single, lookedUp, text, arity, following);
    }
  }

  /** A letter that may take an argument. */
  lemma {:induction false} SpellWithArgument(cfg: Config, single: bool, lookedUp: bool, text: CString, arity: Arity, following: seq<CString>)
    returns (t: Text)
    requires text != "" && AsLetter(cfg, single, lookedUp, text) && Declared(cfg, text[0], arity) && (arity == Optional || arity == Required)
    ensures Fits(cfg, single, lookedUp, t) && Spelled(t) == text
    ensures |Follows(t)| <= |following| && following[..|Follows(t)|] == Follows(t) && (AtEnd(t) ==> following == [])
  {
    hide Declared, AsLetter;
    var c, arg := text[0], text[1..];
    assert text == [c] + arg;
    if arg != "" {
      t := Joined(c, arg);
    } else if arity == Optional {
      t := Alone(c);
    } else if following == [] {
      t := Lacks(c);
    } else {
      t := Next(c, following[0]);
    }
    assert Spelled(t) == text;
    assert Fits(cfg, single, lookedUp, t);
  }

  /** For every option string and table, each command line is written from some list of items. */
  lemma {:induction false} EveryCommandLine(cfg: Config, args: seq<CString>) returns (items: seq<Item>, end: Option<seq<CString>>)
    ensures AllWritable(cfg, items, end) && CommandLine(items, end) == args
    decreases |args|
  {
    if args == [] {
      items, end := [], None;
    } else if args[0] == "--" {
      items, end := [], Some(args[1..]);
      assert args == ["--"] + args[1..];
    } else {
      var item := FirstItem(cfg, args);
      items, end := EveryCommandLine(cfg, args[|Written(item)|..]);
      Prepend(cfg, item, items, end);
      items := [item] + items;
      assert args == Written(item) + args[|Written(item)|..];
    }
  }

  lemma {:induction false} FirstItem(cfg: Config, args: seq<CString>) returns (item: Item)
    requires args != [] && args[0] != "--"
    ensures 0 < |Written(item)| <= |args| && args[..|Written(item)|] == Written(item)
    ensures Writable(cfg, item, |args| == |Written(item)|)
  {
    hide Fits, Follows, LookedUp, AtEnd, Spelled;
    var elem := args[0];
    if elem == "" || elem[0] != '-' || At(elem, 1) == Nul {
      item := Word(elem);
    } else {
      var single := cfg.longopts.None? || elem[1] != '-';
      var whole := if single then elem[1..] else elem[2..];
      ElementIs(elem, single, whole);
      var t := Spell(cfg, single, LookedUp(cfg, single, whole), whole, args[1..]) by { LooksInTable(cfg, single, whole); }
      item := Dashed(single, t);
      FrontOf(args, |Follows(t)|);
    }
  }

  lemma {:induction false} ElementIs(elem: CString, single: bool, whole: CString)
    requires |elem| >= 2 && elem[0] == '-' && (!single ==> elem[1] == '-') && whole == if single then elem[1..] else elem[2..]
    ensures elem == Element(single, whole)
  {
  }

  lemma {:induction false} LooksInTable(cfg: Config, single: bool, whole: CString)
    ensures LookedUp(cfg, single, whole) ==> cfg.longopts.Some?
    ensures !single && cfg.longopts.Some? ==> LookedUp(cfg, single, whole)
  {
  }

  lemma {:induction false} FrontOf(args: seq<CString>, n: nat)
    requires args != [] && n < |args|
    ensures args[..1 + n] == [args[0]] + args[1..][..n]
  {
  }

  lemma {:induction false} Prepend(cfg: Config, item: Item, items: seq<Item>, end: Option<seq<CString>>)
    requires AllWritable(cfg, items, end) && Writable(cfg, item, CommandLine(items, end) == [])
    ensures AllWritable(cfg, [item] + items, end)
    ensures CommandLine([item] + items, end) == Written(item) + CommandLine(items, end)
  {
    hide Writable;
    var all := [item] + items;
    assert all[1..] == items;
    OnlyLastEnds(all, end);
    forall i | 0 <= i < |all| ensures Writable(cfg, all[i], end.None? && i == |all| - 1) {
      if i > 0 { assert all[i] == items[i - 1]; }
    }
  }

  /** So each reading is the meaning of the items its command line is written from. */
  lemma {:induction false} EveryReadingMeans(cfg: Config, args: seq<CString>) returns (items: seq<Item>, end: Option<seq<CString>>)
    ensures AllWritable(cfg, items, end) && CommandLine(items, end) == args
    ensures Reading(cfg, args) == Meaning(cfg, items, end, 0)
  {
    hide AllWritable, CommandLine, Meaning;
    items, end := EveryCommandLine(cfg, args);
    RoundTrip(cfg, items, end, 0);
  }
}
