/** Whole runs of the parser: what argv and the reported options are when a call first returns -1. */
module GetoptTheorems {
  import opened GetoptRules
  import opened GetoptRun

  /** The outcome of reading `argv` (without the program name) left to right, moving nothing. */
  ghost function Reading(cfg: Config, args: seq<CString>): Outcome {
    Scan(RuleOf(cfg), cfg.longopts.Some?, cfg.Ordering(), args, "", 0)
  }

  // ---------------------------------------------------------------- nothing is lost, order is kept

  /** `s` deals out to `a` and `b`, each keeping its order. */
  ghost predicate Deals<T>(s: seq<T>, a: seq<T>, b: seq<T>) {
    if s == [] then a == [] && b == []
    else (a != [] && a[0] == s[0] && Deals(s[1..], a[1..], b)) || (b != [] && b[0] == s[0] && Deals(s[1..], a, b[1..]))
  }

  lemma {:induction false} DealsAll<T>(s: seq<T>)
    ensures Deals(s, s, []) && Deals(s, [], s)
  {
    if s != [] { DealsAll(s[1..]); }
  }

  lemma {:induction false} DealsMore<T>(s: seq<T>, k: nat, a: seq<T>, b: seq<T>)
    requires k <= |s| && Deals(s[k..], a, b)
    ensures Deals(s, s[..k] + a, b)
  {
    if k == 0 {
      assert s[0..] == s && s[..0] + a == a;
    } else {
      assert s[1..][k - 1..] == s[k..];
      DealsMore(s[1..], k - 1, a, b);
      assert (s[..k] + a)[1..] == s[1..][..k - 1] + a;
    }
  }

  lemma {:induction false} DealsKeepsElements<T>(s: seq<T>, a: seq<T>, b: seq<T>)
    requires Deals(s, a, b)
    ensures multiset(a) + multiset(b) == multiset(s)
  {
    if s != [] {
      assert s == [s[0]] + s[1..];
      if a != [] && a[0] == s[0] && Deals(s[1..], a[1..], b) {
        DealsKeepsElements(s[1..], a[1..], b);
        assert a == [a[0]] + a[1..];
      } else {
        DealsKeepsElements(s[1..], a, b[1..]);
        assert b == [b[0]] + b[1..];
      }
    }
  }

  /** The reading deals every element to the used ones or to the operands, in order. */
  lemma {:induction false} ScanDeals(rule: Rule, dashes: bool, ord: Ordering, args: seq<CString>, text: CString, optopt: int)
    requires Progress(rule)
    ensures var r := Scan(rule, dashes, ord, args, text, optopt); Deals(args, r.used, r.operands)
    decreases |args|, if text == "" && args != [] then |args[0]| else |text|
  {
    if args == [] {
    } else if text == "" && IsOperand(args[0]) {
      if ord == RequireOrder {
        DealsAll(args);
      } else {
        ScanDeals(rule, dashes, ord, args[1..], "", optopt);
        var r := Scan(rule, dashes, ord, args[1..], "", optopt);
        assert ([args[0]] + r.operands)[1..] == r.operands && ([args[0]] + r.used)[1..] == r.used;
      }
    } else if text == "" && args[0] == "--" {
      DealsAll(args[1..]);
      assert ["--"][1..] == [];
    } else {
      var start := if text == "" then Start(dashes, args[0]) else text;
      var p := rule(args[0], start, Head(args[1..]), optopt);
      ScanDeals(rule, dashes, ord, args[p.advance..], p.rest, p.event.optopt);
      var r := Scan(rule, dashes, ord, args[p.advance..], p.rest, p.event.optopt);
      DealsMore(args, p.advance, r.used, r.operands);
    }
  }

  // ---------------------------------------------------------------- when -1 means the end

  /** Some text before '=' is taken for row `i` of the table, and that row is reported as -1. */
  ghost predicate RowReportsMinusOne(cfg: Config, key: CString, i: nat) {
    && cfg.longopts.Some? && i < |cfg.longopts.value| && '=' !in key
    && MatchOf(cfg.longopts.value, key, cfg.longOnly) == Unique(i)
    && var o := cfg.longopts.value[i];
       o.flag.None? && o.val == -1 && (key != "" || o.hasArg != 0)
  }

  /** ... and the text is the first `k` characters of that row's name. */
  ghost predicate PrefixReportsMinusOne(cfg: Config, i: nat, k: nat) {
    && cfg.longopts.Some? && i < |cfg.longopts.value| && k <= |cfg.longopts.value[i].name|
    && RowReportsMinusOne(cfg, cfg.longopts.value[i].name[..k], i)
  }

  /** An option letter is the byte 0xFF, or a row with the value -1 and no flag cell is named by a prefix of its name. */
  ghost predicate CanReportMinusOne(cfg: Config) {
    (exists c :: c in cfg.Letters() && Widen(c) == -1) || (exists i: nat, k: nat :: PrefixReportsMinusOne(cfg, i, k))
  }

  /** Nothing but prefixes of its name is taken for a row. */
  lemma {:induction false} NamedByPrefix(cfg: Config, key: CString, i: nat)
    requires RowReportsMinusOne(cfg, key, i)
    ensures PrefixReportsMinusOne(cfg, i, |key|)
  {
    hide MatchOf;
    var opts := cfg.longopts.value;
    assert IsMatch(opts, key, cfg.longOnly, Unique(i)) by { MatchOfMeets(opts, key, cfg.longOnly); }
    assert key <= opts[i].name by {
      if e: nat :| Exact(opts, key, e) { assert Exact(opts, key, i); } else { assert Abbreviates(opts, key, i); }
    }
    assert opts[i].name[..|key|] == key;
  }

  lemma {:induction false} MatchOfMeets(opts: seq<LongOption>, key: CString, longOnly: bool)
    ensures IsMatch(opts, key, longOnly, MatchOf(opts, key, longOnly))
  {
  }

  /** A table without such letters and values. */
  predicate EndIsDistinct(cfg: Config) {
    && (forall c :: c in cfg.Letters() ==> Widen(c) != -1)
    && (cfg.longopts.Some? ==>
          forall i :: 0 <= i < |cfg.longopts.value| ==> cfg.longopts.value[i].flag.None? ==> cfg.longopts.value[i].val != -1)
  }

  lemma {:induction false} DistinctNeverReports(cfg: Config)
    requires EndIsDistinct(cfg)
    ensures !CanReportMinusOne(cfg)
  {
  }

  ghost predicate NoneMinusOne(events: seq<Event>) {
    forall i :: 0 <= i < |events| ==> events[i].ret != -1
  }

  lemma {:induction false} OptionNotMinusOne(cfg: Config, elem: CString, text: CString, next: Option<CString>, optopt: int)
    requires !CanReportMinusOne(cfg) && text != ""
    ensures ParseOption(cfg, elem, text, next, optopt).event.ret != -1
  {
    if TriesLong(cfg, elem) && ParseLong(cfg, elem, text, next, optopt).Some? {
      var m := MatchOf(cfg.longopts.value, Key(text), cfg.longOnly);
      if m.Unique? {
        if RowReportsMinusOne(cfg, Key(text), m.index) { NamedByPrefix(cfg, Key(text), m.index); }
        assert |Key(text)| == |text| ==> Key(text) == text;
      }
    } else {
      assert ArityOf(cfg.Letters(), text[0]) != Unknown ==> text[0] in cfg.Letters();
    }
  }

  lemma {:induction false} ReadingNotMinusOne(cfg: Config, ord: Ordering, args: seq<CString>, text: CString, optopt: int)
    requires !CanReportMinusOne(cfg)
    ensures NoneMinusOne(Scan(RuleOf(cfg), cfg.longopts.Some?, ord, args, text, optopt).events)
    decreases |args|, if text == "" && args != [] then |args[0]| else |text|
  {
    var rule, dashes := RuleOf(cfg), cfg.longopts.Some?;
    if args == [] || (text == "" && args[0] == "--") || (text == "" && IsOperand(args[0]) && ord == RequireOrder) {
    } else if text == "" && IsOperand(args[0]) {
      ReadingNotMinusOne(cfg, ord, args[1..], "", optopt);
    } else {
      var start := if text == "" then Start(dashes, args[0]) else text;
      var p := rule(args[0], start, Head(args[1..]), optopt);
      OptionNotMinusOne(cfg, args[0], start, Head(args[1..]), optopt);
      ReadingNotMinusOne(cfg, ord, args[p.advance..], p.rest, p.event.optopt);
    }
  }

  /** Conversely, where an option can be reported as -1, some command line makes the first call return it. */
  lemma {:induction false} MinusOneIsReached(cfg: Config) returns (args: seq<CString>)
    requires CanReportMinusOne(cfg)
    ensures Reading(cfg, args).events != [] && Reading(cfg, args).events[0].ret == -1
  {
    var elem, text;
    hide ParseOption, Scan, RuleOf, Key, MatchOf;
    if c :| c in cfg.Letters() && Widen(c) == -1 {
      elem, text := ['-', c], [c];
      LetterReported(cfg, c);
    } else {
      var i: nat, k: nat :| PrefixReportsMinusOne(cfg, i, k);
      var key := cfg.longopts.value[i].name[..k];
      text := if key == "" then "=" else key;
      elem := "--" + text;
      assert elem[2..] == text;
      RowReported(cfg, key, i);
    }
    args := [elem, "x"];
    FirstEvent(cfg, elem, text);
  }

  lemma {:induction false} LetterReported(cfg: Config, c: char)
    requires c in cfg.Letters() && Widen(c) == -1
    ensures ParseOption(cfg, ['-', c], [c], Some("x"), 0).event.ret == -1
  {
    assert ArityOf(cfg.Letters(), c) != Unknown;
    assert !TriesLong(cfg, ['-', c]);
  }

  lemma {:induction false} RowReported(cfg: Config, key: CString, i: nat)
    requires RowReportsMinusOne(cfg, key, i)
    ensures var text := if key == "" then "=" else key;
            ParseOption(cfg, "--" + text, text, Some("x"), 0).event.ret == -1
  {
    hide MatchOf;
    KeyWithoutEquals(key);
    assert TriesLong(cfg, "--" + (if key == "" then "=" else key));
  }

  lemma {:induction false} FirstEvent(cfg: Config, elem: CString, text: CString)
    requires !IsOperand(elem) && elem != "--" && Start(cfg.longopts.Some?, elem) == text
    requires ParseOption(cfg, elem, text, Some("x"), 0).event.ret == -1
    ensures var r := Reading(cfg, [elem, "x"]); r.events != [] && r.events[0].ret == -1
  {
    hide ParseOption, RuleOf;
    var args := [elem, "x"];
    assert Head(args[1..]) == Some("x");
    RuleReads(cfg, elem, text, Some("x"), 0);
  }

  lemma {:induction false} KeyWithoutEquals(key: CString)
    requires '=' !in key
    ensures Key(key) == key && Key("=") == ""
  {
    assert |Key(key)| == |key|;
  }

  /** So -1 is ambiguous for exactly these tables. */
  lemma {:induction false} AmbiguousExactlyWhen(cfg: Config)
    ensures CanReportMinusOne(cfg) <==> exists args :: !NoneMinusOne(Reading(cfg, args).events)
  {
    hide Scan, RuleOf, Reading, CanReportMinusOne;
    if CanReportMinusOne(cfg) {
      var args := MinusOneIsReached(cfg);
    } else {
      forall args ensures NoneMinusOne(Reading(cfg, args).events) {
        NothingReported(cfg, args);
      }
    }
  }

  lemma {:induction false} NothingReported(cfg: Config, args: seq<CString>)
    requires !CanReportMinusOne(cfg)
    ensures NoneMinusOne(Reading(cfg, args).events)
  {
    ReadingNotMinusOne(cfg, cfg.Ordering(), args, "", 0);
  }

  // ---------------------------------------------------------------- whole runs

  /** Everything up to the first event reported as -1. */
  ghost function BeforeMinusOne(events: seq<Event>): seq<Event> {
    if events == [] || events[0].ret == -1 then [] else [events[0]] + BeforeMinusOne(events[1..])
  }

  /** A caller that stops at -1 has seen the whole reading exactly when no report is -1. */
  lemma {:induction false} StopsEarlyOnlyAtMinusOne(events: seq<Event>)
    ensures BeforeMinusOne(events) == events <==> NoneMinusOne(events)
  {
    if events != [] && events[0].ret != -1 {
      StopsEarlyOnlyAtMinusOne(events[1..]);
      assert events == [events[0]] + events[1..];
      assert BeforeMinusOne(events)[1..] == BeforeMinusOne(events[1..]);
      assert NoneMinusOne(events) ==> NoneMinusOne(events[1..]);
      if NoneMinusOne(events[1..]) {
        assert forall i :: 0 < i < |events| ==> events[i] == events[1..][i - 1];
      }
    }
  }

  /** A table row whose value is -1 and that has no flag cell ends the caller's loop too soon. */
  lemma {:induction false} MinusOneRowStopsEarly()
    ensures var cfg := Config("", Some([LongOption("x", 0, None, -1)]), false, false);
            var r := Reading(cfg, ["--x", "f"]);
            r.events != [] && BeforeMinusOne(r.events) == [] && r.operands == ["f"]
  {
    var opts := [LongOption("x", 0, None, -1)];
    var cfg := Config("", Some(opts), false, false);
    var args := ["--x", "f"];
    assert Start(true, args[0]) == "x" && Key("x") == "x";
    assert Exact(opts, "x", 0) && IsMatch(opts, "x", false, Unique(0));
    MatchIsDetermined(opts, "x", false, Unique(0), MatchOf(opts, "x", false));
    RuleReads(cfg, args[0], "x", Some("f"), 0);
    assert Head(args[1..]) == Some("f");
    assert args[1..][1..] == [];
    assert Scan(RuleOf(cfg), true, Permute, ["f"], "", 0).operands == ["f"];
  }

  /**
    A caller's loop: call until -1.  The reports are those of the reading of the untouched argv; when
    no report is -1, argv is then the program name, the used elements and the operands.
   */
  method CallUntilMinusOne(cfg: Config, argv: array<CString>) returns (events: seq<Event>, optind: nat)
    requires cfg.NoW() && argv.Length > 0
    modifies argv
    ensures 1 <= optind <= argv.Length && argv[0] == old(argv[0])
    ensures events == BeforeMinusOne(Reading(cfg, old(argv[..])[1..]).events)
    ensures NoneMinusOne(Reading(cfg, old(argv[..])[1..]).events) ==>
              Reading(cfg, old(argv[..])[1..]) == Outcome(events, argv[..][1..optind], argv[..][optind..])
  {
    hide RuleOf, Progress, Scan, Total, BeforeMinusOne;
    var d := new Data();
    events := [];
    ghost var whole := d.RunTotal(cfg, argv);
    FirstTotal(cfg, argv[..]);
    ghost var left := whole;
    assert [] + left.events == left.events;
    while true
      invariant d.Valid(argv) && argv[0] == old(argv[0]) && fresh(d)
      invariant left == d.RunTotal(cfg, argv)
      invariant whole.used == left.used && whole.operands == left.operands && whole.events == events + left.events
      invariant NoneMinusOne(events)
      decreases argv.Length - d.Ind(), d.Text() == "", |d.Text()|
    {
      var ret, index, store := d.Next(cfg, argv);
      if ret == -1 {
        break;
      }
      var e := Event(ret, d.optarg, d.optopt, index, store);
      ghost var now := d.RunTotal(cfg, argv);
      assert events + ([e] + now.events) == (events + [e]) + now.events;
      left, events := now, events + [e];
    }
    CutAtMinusOne(events, left.events);
    optind := d.optind;
  }

  lemma {:induction false} CutAtMinusOne(events: seq<Event>, left: seq<Event>)
    requires NoneMinusOne(events) && (left != [] ==> left[0].ret == -1)
    ensures BeforeMinusOne(events + left) == events
    ensures NoneMinusOne(events + left) ==> left == []
  {
    if events == [] {
      assert events + left == left;
    } else {
      CutAtMinusOne(events[1..], left);
      assert (events + left)[1..] == events[1..] + left;
    }
    assert left != [] ==> (events + left)[|events|] == left[0];
  }

  lemma {:induction false} FirstTotal(cfg: Config, s: seq<CString>)
    requires |s| > 0
    ensures Total(RuleOf(cfg), cfg.longopts.Some?, cfg.Ordering(), s, 1, 1, 1, "", 0) == Reading(cfg, s[1..])
  {
    hide Scan, RuleOf;
    var r := Reading(cfg, s[1..]);
    assert s[1..1] == [] && [] + [] + r.used == r.used && [] + r.operands == r.operands;
  }

  /**
    The whole-run guarantee, for tables in which no option can be reported as -1: the reports are
    those of the untouched argv, and argv is dealt out to used elements and operands, each in order.
   */
  method ParseAll(cfg: Config, argv: array<CString>) returns (events: seq<Event>, optind: nat)
    requires cfg.NoW() && argv.Length > 0 && !CanReportMinusOne(cfg)
    modifies argv
    ensures 1 <= optind <= argv.Length && argv[0] == old(argv[0])
    ensures Reading(cfg, old(argv[..])[1..]) == Outcome(events, argv[..][1..optind], argv[..][optind..])
    ensures Deals(old(argv[..])[1..], argv[..][1..optind], argv[..][optind..])
    ensures multiset(argv[..]) == multiset(old(argv[..]))
  {
    hide RuleOf, Progress, Scan, Total, Deals, CanReportMinusOne;
    ghost var args := argv[..][1..];
    assert argv[..] == [argv[0]] + args;
    ScanDeals(RuleOf(cfg), cfg.longopts.Some?, cfg.Ordering(), args, "", 0);
    ReadingNotMinusOne(cfg, cfg.Ordering(), args, "", 0);
    StopsEarlyOnlyAtMinusOne(Reading(cfg, args).events);
    events, optind := CallUntilMinusOne(cfg, argv);
    DealsKeepsElements(args, argv[..][1..optind], argv[..][optind..]);
    assert argv[..] == [argv[0]] + (argv[..][1..optind] + argv[..][optind..]);
  }
}
