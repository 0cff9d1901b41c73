/**
  The permuting parser of externals/getopt/getopt.c: `argv` is rearranged in place between calls,
  and every call is proved against the reference scan, which rearranges nothing.
 */
module GetoptRun {
  import opened GetoptRules

  // ---------------------------------------------------------------- the block-swap rotation

  /** Where position `k` reads from when two disjoint blocks of the same length are exchanged. */
  function SwapFrom(lo: nat, hi: nat, len: nat, k: int): int {
    if lo <= k < lo + len then k + (hi - lo) else if hi <= k < hi + len then k - (hi - lo) else k
  }

  function Swapped<T>(s: seq<T>, lo: nat, hi: nat, len: nat): (r: seq<T>)
    requires lo + len <= hi && hi + len <= |s|
  {
    seq(|s|, k requires 0 <= k < |s| => s[SwapFrom(lo, hi, len, k)])
  }

  /** The body of both inner loops of `exchange_a`. */
  method SwapBlocks<T>(a: array<T>, lo: nat, hi: nat, len: nat)
    requires lo + len <= hi && hi + len <= a.Length
    modifies a
    ensures a[..] == Swapped(old(a[..]), lo, hi, len)
  {
    SwapNone(a[..], lo, hi);
    for i := 0 to len
      invariant a[..] == Swapped(old(a[..]), lo, hi, i)
    {
      hide Swapped;
      SwapOne(old(a[..]), lo, hi, i);
      a[lo + i], a[hi + i] := a[hi + i], a[lo + i];
    }
  }

  lemma {:induction false} SwapNone<T>(s: seq<T>, lo: nat, hi: nat)
    requires lo <= hi <= |s|
    ensures Swapped(s, lo, hi, 0) == s
  {
  }

  /** Exchanging one more pair makes both blocks longer by one. */
  lemma {:induction false} SwapOne<T>(s: seq<T>, lo: nat, hi: nat, i: nat)
    requires lo + i < hi && hi + i < |s|
    ensures var u := Swapped(s, lo, hi, i);
            |u| == |s| && Swapped(s, lo, hi, i + 1) == u[lo + i := u[hi + i]][hi + i := u[lo + i]]
  {
  }

  /** Where position `k` reads from when the adjacent segments [b, m) and [m, t) are exchanged. */
  function RotateFrom(b: nat, m: nat, t: nat, k: int): int {
    if b <= k < b + (t - m) then k + (m - b) else if b + (t - m) <= k < t then k - (t - m) else k
  }

  function Rotated<T>(s: seq<T>, b: nat, m: nat, t: nat): (r: seq<T>)
    requires b <= m <= t <= |s|
  {
    seq(|s|, k requires 0 <= k < |s| => s[RotateFrom(b, m, t, k)])
  }

  /** Swapping the short left block to the far end leaves a smaller rotation with the same result. */
  lemma {:induction false} RotateLeftBlock<T>(s: seq<T>, u: seq<T>, b: nat, m: nat, t: nat)
    requires b < m < t <= |s| && m - b < t - m
    requires u == Swapped(s, b, t - (m - b), m - b)
    ensures Rotated(u, b, m, t - (m - b)) == Rotated(s, b, m, t)
  {
  }

  /** Swapping the short right block to the front likewise. */
  lemma {:induction false} RotateRightBlock<T>(s: seq<T>, u: seq<T>, b: nat, m: nat, t: nat)
    requires b < m < t <= |s| && t - m <= m - b
    requires u == Swapped(s, b, m, t - m)
    ensures Rotated(u, b + (t - m), m, t) == Rotated(s, b, m, t)
  {
  }

  lemma {:induction false} RotateNothing<T>(s: seq<T>, b: nat, m: nat, t: nat)
    requires b <= m <= t <= |s| && (b == m || m == t)
    ensures Rotated(s, b, m, t) == s
  {
  }

  /** The loop of lines 78-104. */
  method Rotate<T>(argv: array<T>, first: nat, last: nat, optind: nat)
    requires first <= last <= optind <= argv.Length
    modifies argv
    ensures argv[..] == Rotated(old(argv[..]), first, last, optind)
  {
    hide Rotated, Swapped;
    ghost var goal := Rotated(argv[..], first, last, optind);
    var bottom, middle, top := first, last, optind;
    while top > middle && middle > bottom
      invariant first <= bottom <= middle <= top <= optind
      invariant Rotated(argv[..], bottom, middle, top) == goal
      decreases top - bottom
    {
      ghost var s := argv[..];
      if top - middle > middle - bottom {
        var len := middle - bottom;
        SwapBlocks(argv, bottom, top - len, len);
        RotateLeftBlock(s, argv[..], bottom, middle, top);
        top := top - len;
      } else {
        var len := top - middle;
        SwapBlocks(argv, bottom, middle, len);
        RotateRightBlock(s, argv[..], bottom, middle, top);
        bottom := bottom + len;
      }
    }
    RotateNothing(argv[..], bottom, middle, top);
  }

  // ---------------------------------------------------------------- what the marks account for

  /**
    The outcome of a whole run as seen from the middle of it: options already read lie in [1, first)
    and [last, ind), operands already passed in [first, last), and the rest is scanned in place.
   */
  ghost function Total(rule: Rule, dashes: bool, ord: Ordering, s: seq<CString>, first: nat, last: nat, ind: nat,
                       text: CString, optopt: int): Outcome
    requires Progress(rule) && 1 <= first <= last <= ind <= |s|
  {
    var r := Scan(rule, dashes, ord, s[ind..], text, optopt);
    Outcome(r.events, s[1..first] + s[last..ind] + r.used, s[first..last] + r.operands)
  }

  function Prepend(e: Event, o: Outcome): Outcome { o.(events := [e] + o.events) }

  lemma {:induction false} UseMore(s: seq<CString>, first: nat, last: nat, ind: nat, ind': nat, rest: seq<CString>)
    requires 1 <= first <= last <= ind <= ind' <= |s|
    ensures s[1..first] + s[last..ind] + (s[ind..ind'] + rest) == s[1..first] + s[last..ind'] + rest
  {
    assert s[last..ind'] == s[last..ind] + s[ind..ind'];
  }

  /** The exchange loses nothing. */
  lemma {:induction false} ExchangeKeepsTotal(rule: Rule, dashes: bool, ord: Ordering, s: seq<CString>, first: nat, last: nat,
                                              ind: nat, optopt: int)
    requires Progress(rule) && 1 <= first <= last <= ind <= |s|
    ensures Total(rule, dashes, ord, Rotated(s, first, last, ind), first + (ind - last), ind, ind, "", optopt)
            == Total(rule, dashes, ord, s, first, last, ind, "", optopt)
  {
    hide Scan;
    var u, first' := Rotated(s, first, last, ind), first + (ind - last);
    assert u[ind..] == s[ind..] && u[first'..ind] == s[first..last];
    assert u[1..first'] + u[ind..ind] == s[1..first] + s[last..ind];
  }

  /** Operands in front of an option only add to the operands. */
  lemma {:induction false} PassedOperands(rule: Rule, dashes: bool, args: seq<CString>, k: nat, optopt: int)
    requires Progress(rule) && k <= |args| && forall i :: 0 <= i < k ==> IsOperand(args[i])
    ensures var r := Scan(rule, dashes, Permute, args[k..], "", optopt);
            Scan(rule, dashes, Permute, args, "", optopt) == r.(operands := args[..k] + r.operands)
  {
    if k == 0 {
      assert args[0..] == args && args[..0] == [];
      var r := Scan(rule, dashes, Permute, args, "", optopt);
      assert [] + r.operands == r.operands;
    } else {
      PassedOperands(rule, dashes, args[1..], k - 1, optopt);
      assert args[1..][k - 1..] == args[k..];
      assert [args[0]] + args[1..][..k - 1] == args[..k];
      var r := Scan(rule, dashes, Permute, args[k..], "", optopt);
      assert [args[0]] + (args[1..][..k - 1] + r.operands) == args[..k] + r.operands;
    }
  }

  lemma {:induction false} PassKeepsTotal(rule: Rule, dashes: bool, s: seq<CString>, first: nat, ind: nat, ind': nat, optopt: int)
    requires Progress(rule) && 1 <= first <= ind <= ind' <= |s| && forall k :: ind <= k < ind' ==> IsOperand(s[k])
    ensures Total(rule, dashes, Permute, s, first, ind', ind', "", optopt)
            == Total(rule, dashes, Permute, s, first, ind, ind, "", optopt)
  {
    hide Scan;
    var args, k := s[ind..], ind' - ind;
    PassedOperands(rule, dashes, args, k, optopt);
    assert args[k..] == s[ind'..] && s[first..ind] + args[..k] == s[first..ind'];
    var r := Scan(rule, dashes, Permute, s[ind'..], "", optopt);
    assert s[first..ind] + (args[..k] + r.operands) == s[first..ind'] + r.operands;
    assert s[ind..ind] == s[ind'..ind'] == [];
  }

  lemma {:induction false} SettleKeepsTotal(rule: Rule, dashes: bool, s: seq<CString>, u: seq<CString>, first: nat, last: nat,
                                            ind: nat, ind': nat, optopt: int)
    requires Progress(rule) && 1 <= first <= last <= ind <= ind' <= |s| && u == Rotated(s, first, last, ind)
    requires forall k :: ind <= k < ind' ==> IsOperand(u[k])
    ensures Total(rule, dashes, Permute, u, first + (ind - last), ind', ind', "", optopt)
            == Total(rule, dashes, Permute, s, first, last, ind, "", optopt)
  {
    hide Total;
    ExchangeKeepsTotal(rule, dashes, Permute, s, first, last, ind, optopt);
    PassKeepsTotal(rule, dashes, u, first + (ind - last), ind, ind', optopt);
  }

  /** At the end of the arguments the marks are the answer. */
  lemma {:induction false} TotalAtEnd(rule: Rule, dashes: bool, ord: Ordering, s: seq<CString>, first: nat, last: nat, optopt: int)
    requires Progress(rule) && 1 <= first <= last <= |s| && (first == last || last == |s|)
    ensures var cut := if first == last then |s| else first;
            Total(rule, dashes, ord, s, first, last, |s|, "", optopt) == Outcome([], s[1..cut], s[cut..])
  {
    assert s[|s|..] == [];
    assert first == last ==> s[1..first] + s[last..] == s[1..];
  }

  /** `--` joins the options; everything after it is an operand, whatever it looks like. */
  lemma {:induction false} TotalAtDashes(rule: Rule, dashes: bool, ord: Ordering, s: seq<CString>, first: nat, last: nat, ind: nat,
                                         optopt: int)
    requires Progress(rule) && 1 <= first <= last <= ind < |s| && s[ind] == "--"
    ensures var u, cut := Rotated(s, first, last, ind + 1), first + (ind + 1 - last);
            Total(rule, dashes, ord, s, first, last, ind, "", optopt) == Outcome([], u[1..cut], u[cut..])
  {
    var u, cut := Rotated(s, first, last, ind + 1), first + (ind + 1 - last);
    assert s[last..ind] + ["--"] == s[last..ind + 1];
    assert u[1..cut] == s[1..first] + s[last..ind + 1] == s[1..first] + s[last..ind] + ["--"];
    assert s[ind..][1..] == s[ind + 1..];
    assert u[cut..] == s[first..last] + s[ind + 1..];
  }

  /** POSIX order: the first operand ends the options. */
  lemma {:induction false} TotalAtOperand(rule: Rule, dashes: bool, s: seq<CString>, first: nat, ind: nat, optopt: int)
    requires Progress(rule) && 1 <= first <= ind < |s| && IsOperand(s[ind])
    ensures Total(rule, dashes, RequireOrder, s, first, first, ind, "", optopt) == Outcome([], s[1..ind], s[ind..])
  {
    assert s[1..first] + s[first..ind] == s[1..ind];
  }

  /** In-order mode reports the operand as an event and uses it up. */
  lemma {:induction false} TotalInOrder(rule: Rule, dashes: bool, s: seq<CString>, first: nat, ind: nat, optopt: int)
    requires Progress(rule) && 1 <= first <= ind < |s| && IsOperand(s[ind])
    ensures var t := Total(rule, dashes, ReturnInOrder, s, first, first, ind + 1, "", optopt);
            Total(rule, dashes, ReturnInOrder, s, first, first, ind, "", optopt)
            == Prepend(Event(1, Some(s[ind]), optopt, None, None), t)
  {
    assert s[ind..][1..] == s[ind + 1..];
    var r := Scan(rule, dashes, ReturnInOrder, s[ind + 1..], "", optopt);
    assert [s[ind]] == s[ind..ind + 1];
    UseMore(s, first, first, ind, ind + 1, r.used);
  }

  /** Entering an option element changes nothing. */
  lemma {:induction false} TotalAtStart(rule: Rule, dashes: bool, ord: Ordering, s: seq<CString>, first: nat, last: nat, ind: nat,
                                        optopt: int)
    requires Progress(rule) && 1 <= first <= last <= ind < |s| && !IsOperand(s[ind]) && s[ind] != "--"
    ensures Total(rule, dashes, ord, s, first, last, ind, "", optopt)
            == Total(rule, dashes, ord, s, first, last, ind, Start(dashes, s[ind]), optopt)
  {
    var start := Start(dashes, s[ind]);
    assert Scan(rule, dashes, ord, s[ind..], "", optopt) == Scan(rule, dashes, ord, s[ind..], start, optopt);
  }

  lemma {:induction false} ScanAtOption(rule: Rule, dashes: bool, ord: Ordering, args: seq<CString>, text: CString, optopt: int)
    requires Progress(rule) && args != [] && text != ""
    ensures var p := rule(args[0], text, Head(args[1..]), optopt);
            && p.advance <= |args| && (p.rest != "" ==> p.advance == 0)
            && var r := Scan(rule, dashes, ord, args[p.advance..], p.rest, p.event.optopt);
               Scan(rule, dashes, ord, args, text, optopt)
               == Outcome([p.event] + r.events, args[..p.advance] + r.used, r.operands)
  {
  }

  /** One option. */
  lemma {:induction false} TotalAtOption(rule: Rule, dashes: bool, ord: Ordering, s: seq<CString>, first: nat, last: nat, ind: nat,
                                         text: CString, next: Option<CString>, optopt: int)
    requires Progress(rule) && 1 <= first <= last <= ind < |s| && text != ""
    requires next == if ind + 1 < |s| then Some(s[ind + 1]) else None
    ensures var p := rule(s[ind], text, next, optopt);
            && ind + p.advance <= |s| && (p.rest != "" ==> ind + p.advance < |s|)
            && var t := Total(rule, dashes, ord, s, first, last, ind + p.advance, p.rest, p.event.optopt);
               Total(rule, dashes, ord, s, first, last, ind, text, optopt) == Prepend(p.event, t)
  {
    hide Scan;
    var args := s[ind..];
    assert Head(args[1..]) == next;
    ScanAtOption(rule, dashes, ord, args, text, optopt);
    var p := rule(s[ind], text, next, optopt);
    assert args[p.advance..] == s[ind + p.advance..];
    var r := Scan(rule, dashes, ord, args[p.advance..], p.rest, p.event.optopt);
    assert args[..p.advance] == s[ind..ind + p.advance];
    UseMore(s, first, last, ind, ind + p.advance, r.used);
  }

  // ---------------------------------------------------------------- the parser state

  function Min(a: nat, b: nat): nat { if a < b then a else b }

  datatype Stop = AtEnd | AtOperand | AtOption

  /** `_getopt_data_a`; `nextchar` holds what is left of the element it points into. */
  class Data {
    var optind: nat
    var optopt: int
    var optarg: Option<CString>
    var initialized: bool
    var nextchar: Option<CString>
    var ordering: Ordering
    var firstNonopt: nat
    var lastNonopt: nat

    constructor ()
      ensures !initialized && optind == 1 && optopt == 0
    {
      optind, optopt, optarg, initialized := 1, 0, None, false;
      nextchar, ordering, firstNonopt, lastNonopt := None, Permute, 0, 0;
    }

    // The state a call sees after its own set-up (lines 135-151): a fresh object starts over, and
    // marks beyond an optind the caller moved back are pulled in.

    predicate Fresh() reads this { optind == 0 || !initialized }

    function Ind(): nat reads this { if optind == 0 then 1 else optind }

    function First(): nat reads this { if Fresh() then Ind() else Min(firstNonopt, optind) }

    function Last(): nat reads this { if Fresh() then Ind() else Min(lastNonopt, optind) }

    /** The unread part of the current element; empty between elements. */
    function Text(): CString reads this { if Fresh() || nextchar.None? then "" else nextchar.value }

    function Ord(cfg: Config): Ordering reads this { if Fresh() then cfg.Ordering() else ordering }

    ghost predicate Valid(argv: array<CString>)
      reads this
    {
      && 1 <= First() <= Last() <= Ind() <= argv.Length
      && (Text() != "" ==> optind < argv.Length && firstNonopt <= lastNonopt <= optind)
      && (!Fresh() && ordering != Permute ==> First() == Last())
    }

    /** The outcome of the run this state belongs to. */
    ghost function RunTotal(cfg: Config, argv: array<CString>): Outcome
      requires Valid(argv)
      reads this, argv
    {
      Total(RuleOf(cfg), cfg.longopts.Some?, Ord(cfg), argv[..], First(), Last(), Ind(), Text(), optopt)
    }

    /** Lines 72-107: the options read since the last exchange move in front of the operands. */
    method Exchange(argv: array<CString>)
      requires firstNonopt <= lastNonopt <= optind <= argv.Length && argv.Length > 0
      modifies this`firstNonopt, this`lastNonopt, argv
      ensures argv[..] == Rotated(old(argv[..]), old(firstNonopt), old(lastNonopt), optind)
      ensures firstNonopt == old(firstNonopt) + (optind - old(lastNonopt)) && lastNonopt == optind
      ensures old(firstNonopt) >= 1 ==> argv[0] == old(argv[0])
    {
      Rotate(argv, firstNonopt, lastNonopt, optind);
      assert firstNonopt >= 1 ==> argv[..][0] == old(argv[..])[0];
      firstNonopt := firstNonopt + (optind - lastNonopt);
      lastNonopt := optind;
    }

    /** Lines 154-160, PERMUTE only: gather the operands seen so far and run over the next ones. */
    method PassOperands(argv: array<CString>)
      requires 1 <= firstNonopt <= lastNonopt <= optind <= argv.Length
      modifies this`firstNonopt, this`lastNonopt, this`optind, argv
      ensures old(optind) <= optind <= argv.Length
      ensures argv[..] == Rotated(old(argv[..]), old(firstNonopt), old(lastNonopt), old(optind))
      ensures firstNonopt == old(firstNonopt) + (old(optind) - old(lastNonopt)) && lastNonopt == optind
      ensures forall k :: old(optind) <= k < optind ==> IsOperand(argv[k])
      ensures optind < argv.Length ==> !IsOperand(argv[optind])
      ensures argv[0] == old(argv[0])
    {
      if firstNonopt != lastNonopt && lastNonopt != optind {
        Exchange(argv);
      } else {
        RotateNothing(argv[..], firstNonopt, lastNonopt, optind);
        if lastNonopt != optind {
          firstNonopt := optind;
        }
      }
      while optind < argv.Length && IsOperand(argv[optind])
        invariant old(optind) <= optind <= argv.Length
        invariant forall k :: old(optind) <= k < optind ==> IsOperand(argv[k])
        modifies this`optind
      {
        optind := optind + 1;
      }
      lastNonopt := optind;
    }

    /** Lines 148-161, between elements: pull the marks in and, in PERMUTE mode, pass the operands. */
    method Settle(cfg: Config, argv: array<CString>)
      requires Valid(argv) && !Fresh() && Text() == ""
      modifies this`firstNonopt, this`lastNonopt, this`optind, argv
      ensures Valid(argv) && firstNonopt <= lastNonopt <= optind && old(optind) <= optind
      ensures ordering == Permute ==> lastNonopt == optind
      ensures ordering == Permute && optind < argv.Length ==> !IsOperand(argv[optind])
      ensures RunTotal(cfg, argv) == old(RunTotal(cfg, argv)) && argv[0] == old(argv[0])
    {
      hide Total, RuleOf, Rotated, Progress;
      ghost var rule, dashes := RuleOf(cfg), cfg.longopts.Some?;
      if lastNonopt > optind {
        lastNonopt := optind;
      }
      if firstNonopt > optind {
        firstNonopt := optind;
      }
      if ordering == Permute {
        ghost var s, first, last, ind := argv[..], firstNonopt, lastNonopt, optind;
        PassOperands(argv);
        SettleKeepsTotal(rule, dashes, s, argv[..], first, last, ind, optind, optopt);
      }
    }

    /** Lines 164-170: `--` ends the options. */
    method TakeDashes(cfg: Config, argv: array<CString>)
      requires Valid(argv) && !Fresh() && Text() == "" && firstNonopt <= lastNonopt <= optind < argv.Length
      requires argv[optind] == "--"
      modifies this`firstNonopt, this`lastNonopt, this`optind, argv
      ensures 1 <= firstNonopt <= lastNonopt == optind == argv.Length && argv[0] == old(argv[0])
      ensures old(RunTotal(cfg, argv)) == Outcome([], argv[..][1..firstNonopt], argv[..][firstNonopt..])
    {
      hide Total, RuleOf, Rotated, Progress;
      TotalAtDashes(RuleOf(cfg), cfg.longopts.Some?, ordering, argv[..], firstNonopt, lastNonopt, optind, optopt);
      RotateNothing(argv[..], firstNonopt, firstNonopt, optind + 1);
      optind := optind + 1;
      if firstNonopt != lastNonopt && lastNonopt != optind {
        Exchange(argv);
      } else if firstNonopt == lastNonopt {
        firstNonopt := optind;
      }
      lastNonopt := argv.Length;
      optind := argv.Length;
    }

    /** Lines 146-186, between elements: find the next option, or the end, or an operand to report. */
    method Advance(cfg: Config, argv: array<CString>) returns (stop: Stop)
      requires Valid(argv) && !Fresh() && Text() == "" && optarg == None
      modifies this`firstNonopt, this`lastNonopt, this`optind, this`optarg, this`nextchar, argv
      ensures !Fresh() && 1 <= optind <= argv.Length && argv[0] == old(argv[0])
      ensures stop == AtEnd ==> old(RunTotal(cfg, argv)) == Outcome([], argv[..][1..optind], argv[..][optind..])
      ensures stop != AtEnd ==> Valid(argv) && old(optind) <= optind
      ensures stop == AtOption ==> Text() != "" && optarg == None && RunTotal(cfg, argv) == old(RunTotal(cfg, argv))
      ensures stop == AtOperand ==> Text() == "" && old(optind) < optind
      ensures stop == AtOperand ==>
                old(RunTotal(cfg, argv)) == Prepend(Event(1, optarg, optopt, None, None), RunTotal(cfg, argv))
    {
      hide Total, RuleOf, Rotated, Progress;
      ghost var rule, dashes := RuleOf(cfg), cfg.longopts.Some?;
      Settle(cfg, argv);
      if optind != argv.Length && argv[optind] == "--" {
        TakeDashes(cfg, argv);
      } else if optind == argv.Length {
        TotalAtEnd(rule, dashes, ordering, argv[..], firstNonopt, lastNonopt, optopt);
      }
      if optind == argv.Length {
        if firstNonopt != lastNonopt {
          optind := firstNonopt;
        }
        return AtEnd;
      }
      if IsOperand(argv[optind]) {
        if ordering == RequireOrder {
          TotalAtOperand(rule, dashes, argv[..], firstNonopt, optind, optopt);
          return AtEnd;
        }
        TotalInOrder(rule, dashes, argv[..], firstNonopt, optind, optopt);
        optarg := Some(argv[optind]);
        optind := optind + 1;
        return AtOperand;
      }
      TotalAtStart(rule, dashes, ordering, argv[..], firstNonopt, lastNonopt, optind, optopt);
      nextchar := Some(Start(cfg.longopts.Some?, argv[optind]));
      return AtOption;
    }

    /** Lines 108-128 and 135-141. */
    method Initialize(cfg: Config, argv: array<CString>)
      requires Valid(argv) && Fresh()
      modifies this`optind, this`initialized, this`nextchar, this`ordering, this`firstNonopt, this`lastNonopt
      ensures Valid(argv) && !Fresh() && optind == old(Ind()) && Text() == old(Text())
      ensures RunTotal(cfg, argv) == old(RunTotal(cfg, argv))
    {
      hide Total, RuleOf, Progress;
      if optind == 0 {
        optind := 1;
      }
      firstNonopt, lastNonopt, nextchar := optind, optind, None;
      if At(cfg.optstring, 0) == '-' {
        ordering := ReturnInOrder;
      } else if At(cfg.optstring, 0) == '+' {
        ordering := RequireOrder;
      } else if cfg.posixlyCorrect {
        ordering := RequireOrder;
      } else {
        ordering := Permute;
      }
      initialized := true;
    }

    /**
      Lines 129-477, one call.  The outcome of the run is fixed by its first state: a call takes the
      next event off it, or, when none is left, leaves argv split at optind.
     */
    method Next(cfg: Config, argv: array<CString>) returns (ret: int, index: Option<nat>, store: Option<(nat, int)>)
      requires cfg.NoW() && (argv.Length > 0 ==> Valid(argv))
      modifies this, argv
      ensures argv.Length == 0 ==> ret == -1
      ensures argv.Length > 0 ==> 1 <= optind <= argv.Length && argv[0] == old(argv[0])
      ensures argv.Length > 0 && old(RunTotal(cfg, argv)).events == [] ==>
                ret == -1 && old(RunTotal(cfg, argv)) == Outcome([], argv[..][1..optind], argv[..][optind..])
      ensures argv.Length > 0 && old(RunTotal(cfg, argv)).events != [] ==>
                && Valid(argv) && !Fresh() && Advanced(old(Ind()), old(Text()))
                && old(RunTotal(cfg, argv)) == Prepend(Event(ret, optarg, optopt, index, store), RunTotal(cfg, argv))
    {
      hide Total, RuleOf, Progress, ParseOption;
      index, store := None, None;
      if argv.Length < 1 {
        return -1, None, None;
      }
      optarg := None;
      if Fresh() {
        Initialize(cfg, argv);
      }
      if nextchar.None? || nextchar.value == "" {
        var stop := Advance(cfg, argv);
        if stop == AtEnd {
          return -1, None, None;
        }
        if stop == AtOperand {
          return 1, None, None;
        }
      }
      ret, index, store := TakeOption(cfg, argv);
    }

    /** The second half of a call: the pending text is not empty. */
    method TakeOption(cfg: Config, argv: array<CString>) returns (ret: int, index: Option<nat>, store: Option<(nat, int)>)
      requires cfg.NoW() && Valid(argv) && !Fresh() && Text() != "" && optarg == None
      modifies this`optind, this`optarg, this`optopt, this`nextchar
      ensures Valid(argv) && !Fresh() && Advanced(old(Ind()), old(Text()))
      ensures old(RunTotal(cfg, argv)) == Prepend(Event(ret, optarg, optopt, index, store), RunTotal(cfg, argv))
    {
      hide Total, RuleOf, Progress, ParseOption;
      var text := nextchar.value;
      ghost var next := NextArg(argv, optind);
      TotalAtOption(RuleOf(cfg), cfg.longopts.Some?, ordering, argv[..], First(), Last(), optind, text, next, optopt);
      RuleReads(cfg, argv[optind], text, next, optopt);
      ret, index, store := ReadOption(cfg, argv, text);
    }

    /** Lines 187-476: read one option out of the current element. */
    method ReadOption(cfg: Config, argv: array<CString>, text: CString)
      returns (ret: int, index: Option<nat>, store: Option<(nat, int)>)
      requires 1 <= optind < argv.Length && text != "" && cfg.NoW()
      requires optarg == None && nextchar == Some(text)
      modifies this`optind, this`optarg, this`optopt, this`nextchar
      ensures Reports(ParseOption(cfg, argv[old(optind)], text, NextArg(argv, old(optind)), old(optopt)),
                      old(optind), ret, index, store)
    {
      hide ParseLong, ParseShort;
      if TriesLong(cfg, argv[optind]) {
        var r, i, s := ReadLong(cfg, argv, text);
        if r.Some? {
          return r.value, i, s;
        }
      }
      index, store := None, None;
      ret := ReadShort(cfg, argv, text);
    }

    /** The position (optind, unread text) has moved on from (ind, text). */
    ghost predicate Advanced(ind: nat, text: CString)
      reads this
    {
      ind < optind || (ind == optind && Text() != "" && (text == "" || |Text()| < |text|))
    }

    /** Lines 187-315: look the element up in the long table; None when the letters should try it. */
    method ReadLong(cfg: Config, argv: array<CString>, text: CString)
      returns (ret: Option<int>, index: Option<nat>, store: Option<(nat, int)>)
      requires 1 <= optind < argv.Length && text != "" && cfg.longopts.Some?
      modifies this`optind, this`optarg, this`optopt, this`nextchar
      requires optarg == None && nextchar == Some(text)
      ensures var p := ParseLong(cfg, argv[old(optind)], text, NextArg(argv, old(optind)), old(optopt));
              if p.None? then
                ret.None? && optind == old(optind) && optarg == None && optopt == old(optopt) && nextchar == Some(text)
              else
                ret.Some? && Reports(p.value, old(optind), ret.value, index, store)
    {
      var opts, elem := cfg.longopts.value, argv[optind];
      var key := Key(text);
      var m := FindLong(opts, key, cfg.longOnly);
      MatchIsDetermined(opts, key, cfg.longOnly, m, MatchOf(opts, key, cfg.longOnly));
      index, store := None, None;
      match m
      case Ambiguous =>
        nextchar, optind, optopt := Some(""), optind + 1, 0;
        return Some(Question), None, None;
      case NoMatch =>
        if !cfg.longOnly || At(elem, 1) == '-' || text[0] !in cfg.Letters() {
          nextchar, optind, optopt := Some(""), optind + 1, 0;
          return Some(Question), None, None;
        }
        return None, None, None;
      case Unique(i) =>
        var o := opts[i];
        optind := optind + 1;
        if |key| < |text| {
          if o.hasArg != 0 {
            optarg := Some(text[|key| + 1..]);
          } else {
            nextchar, optopt := Some(""), o.val;
            return Some(Question), None, None;
          }
        } else if o.hasArg == 1 {
          if optind < argv.Length {
            optarg := Some(argv[optind]);
            optind := optind + 1;
          } else {
            nextchar, optopt := Some(""), o.val;
            return Some(cfg.MissingCode()), None, None;
          }
        }
        nextchar := Some("");
        if o.flag.Some? {
          return Some(0), Some(i), Some((o.flag.value, o.val));
        }
        return Some(o.val), Some(i), None;
    }

    /** Line 319: the first occurrence of a letter; what follows it says how it is read. */
    method FindLetter(letters: CString, c: char) returns (temp: nat)
      ensures temp <= |letters|
      ensures FirstArity(letters, c)
              == if temp == |letters| then Unknown
                 else if At(letters, temp + 1) != ':' then Plain
                 else if At(letters, temp + 2) != ':' then Required
                 else Optional
    {
      temp := 0;
      while temp < |letters| && letters[temp] != c
        invariant temp <= |letters|
        invariant FirstArity(letters[temp..], c) == FirstArity(letters, c)
      {
        assert letters[temp..][1..] == letters[temp + 1..];
        temp := temp + 1;
      }
      assert At(letters[temp..], 1) == At(letters, temp + 1) && At(letters[temp..], 2) == At(letters, temp + 2);
    }

    /** Lines 317-476, without the `W;` branch. */
    method ReadShort(cfg: Config, argv: array<CString>, text: CString) returns (ret: int)
      requires 1 <= optind < argv.Length && text != "" && cfg.NoW()
      requires optarg == None
      modifies this`optind, this`optarg, this`optopt, this`nextchar
      ensures Reports(ParseShort(cfg, text, NextArg(argv, old(optind)), old(optopt)), old(optind), ret, None, None)
    {
      var letters := cfg.Letters();
      var c := text[0];
      nextchar := Some(text[1..]);
      hide FirstArity;
      var temp := FindLetter(letters, c);
      var rest := text[1..];
      if rest == "" {
        optind := optind + 1;
      }
      if temp == |letters| || c == ':' || c == ';' {
        optopt := Widen(c);
        return Question;
      }
      ret := Widen(c);
      if At(letters, temp + 1) == ':' {
        if At(letters, temp + 2) == ':' {
          if rest != "" {
            optarg := Some(rest);
            optind := optind + 1;
          }
        } else if rest != "" {
          optarg := Some(rest);
          optind := optind + 1;
        } else if optind == argv.Length {
          optopt := Widen(c);
          ret := cfg.MissingCode();
        } else {
          optarg := Some(argv[optind]);
          optind := optind + 1;
        }
        nextchar := None;
      }
    }

    /** The fields and results of a call that read `p` at position `ind`. */
    ghost predicate Reports(p: Parsed, ind: nat, ret: int, index: Option<nat>, store: Option<(nat, int)>)
      reads this
    {
      && p.event == Event(ret, optarg, optopt, index, store)
      && optind == ind + p.advance
      && p.rest == (if nextchar.None? then "" else nextchar.value)
    }
  }

  lemma {:induction false} RuleReads(cfg: Config, elem: CString, text: CString, next: Option<CString>, optopt: int)
    requires text != ""
    ensures var p := RuleOf(cfg)(elem, text, next, optopt);
            && p == ParseOption(cfg, elem, text, next, optopt)
            && (p.rest != "" ==> p.advance == 0 && |p.rest| < |text|)
            && (p.rest == "" ==> p.advance >= 1)
  {
  }

  ghost function NextArg(argv: array<CString>, ind: nat): Option<CString>
    reads argv
  {
    if ind + 1 < argv.Length then Some(argv[ind + 1]) else None
  }
}
