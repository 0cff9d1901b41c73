/** What is printed for a list: the elements that print anything, with commas between them. */
module DemangleLists {
  import opened DemangleNodes
  import opened DemanglePrint
  import opened DemangleBalance

  function Join(pieces: seq<string>): string {
    if pieces == [] then "" else pieces[0] + JoinMore(pieces[1..])
  }

  /** Pieces that follow others. */
  function JoinMore(pieces: seq<string>): string {
    if pieces == [] then "" else ", " + pieces[0] + JoinMore(pieces[1..])
  }

  /** What a node adds to the stream. */
  function Added(n: Node, s: Stream, full: bool): string {
    var r := Print(n, s, full);
    if |s.text| <= |r.text| then r.text[|s.text|..] else ""
  }

  /** The pieces of a list, each as its element prints it where it stands: behind the pieces before it and a comma. */
  ghost function Pieces(ns: Nodes, before: seq<string>, s: Stream, full: bool): seq<string>
    decreases SizeNodes(ns)
  {
    if ns.Empty? then []
    else
      var at := Put(s, Join(before) + if before == [] then "" else ", ");
      var piece := Added(ns.head, at, full);
      var turn := Print(ns.head, at, full).turn;
      if piece == "" then Pieces(ns.rest, before, s.(turn := turn), full)
      else [piece] + Pieces(ns.rest, before + [piece], s.(turn := turn), full)
  }

  /** For every list: its pieces with ", " between them; elements that print nothing leave no comma behind. */
  lemma {:induction false} ListIsJoined(ns: Nodes, s: Stream, full: bool)
    ensures WithComma(ns, true, s, full).text == s.text + Join(Pieces(ns, [], s, full))
  {
    hide WithComma, Pieces;
    assert Put(s, Join([])).text == s.text;
    assert Put(s, Join([])) == s;
    assert [] + Pieces(ns, [], s, full) == Pieces(ns, [], s, full);
    RestIsJoined(ns, [], s, full);
  }

  lemma {:induction false} PutPut(s: Stream, a: string, b: string)
    ensures Put(Put(s, a), b) == Put(s, a + b) && Put(s, "") == s
  {
    assert s.text + a + b == s.text + (a + b);
    assert s.text + "" == s.text;
  }

  /** The stream behind a piece is the one in front of it with the piece added. */
  lemma {:induction false} AddedIs(n: Node, s: Stream, full: bool)
    ensures Print(n, s, full) == Put(s, Added(n, s, full)).(turn := Print(n, s, full).turn)
    ensures |Print(n, s, full).text| == |s.text| <==> Added(n, s, full) == ""
  {
    hide Print;
    PrintExtends(n, s, full);
  }

  lemma {:induction false} RestIsJoined(ns: Nodes, before: seq<string>, s: Stream, full: bool)
    ensures WithComma(ns, before == [], Put(s, Join(before)), full).text == s.text + Join(before + Pieces(ns, before, s, full))
    decreases SizeNodes(ns)
  {
    hide Print, Join, Put, Added;
    if ns.Empty? {
      assert before + [] == before;
      assert Put(s, Join(before)).text == s.text + Join(before) by { PutText(s, Join(before)); }
    } else {
      var comma := if before == [] then "" else ", ";
      var at := Put(s, Join(before) + comma);
      PutPut(s, Join(before), comma);
      PutPut(Put(s, Join(before)), "", "");
      var piece, r := Added(ns.head, at, full), Print(ns.head, at, full);
      var t := s.(turn := r.turn);
      AddedIs(ns.head, at, full);
      if piece == "" {
        RestIsJoined(ns.rest, before, t, full);
        TurnAlone(s, Join(before), comma, piece, r);
      } else {
        JoinOne(before, piece);
        TurnAlone(s, Join(before), comma, piece, r);
        assert r == Put(t, Join(before + [piece]));
        RestIsJoined(ns.rest, before + [piece], t, full);
        var rest := Pieces(ns.rest, before + [piece], t, full);
        assert before + [piece] + rest == before + ([piece] + rest);
      }
    }
  }

  lemma {:induction false} PutText(s: Stream, a: string)
    ensures Put(s, a).text == s.text + a
  {
  }

  /** A piece behind `before` and a comma changes the turn only. */
  lemma {:induction false} TurnAlone(s: Stream, before: string, comma: string, piece: string, r: Stream)
    requires r == Put(Put(s, before + comma), piece).(turn := r.turn)
    ensures r == Put(s.(turn := r.turn), before + comma + piece)
    ensures piece == "" ==> Rewound(r, |Put(s, before).text|) == Put(s.(turn := r.turn), before)
  {
    assert s.text + (before + comma) + piece == s.text + (before + comma + piece);
    if piece == "" { assert r.text[..|s.text + before|] == s.text + before; }
  }

  lemma {:induction false} JoinOne(before: seq<string>, piece: string)
    ensures Join(before + [piece]) == Join(before) + (if before == [] then "" else ", ") + piece
  {
    if before == [] {
      assert before + [piece] == [piece];
      assert JoinMore([]) == "";
    } else {
      assert (before + [piece])[1..] == before[1..] + [piece];
      JoinMoreOne(before[1..], piece);
    }
  }

  lemma {:induction false} JoinMoreOne(before: seq<string>, piece: string)
    ensures JoinMore(before + [piece]) == JoinMore(before) + ", " + piece
  {
    if before == [] {
      assert before + [piece] == [piece];
      assert JoinMore([]) == "";
    } else {
      assert (before + [piece])[1..] == before[1..] + [piece];
      JoinMoreOne(before[1..], piece);
      assert ", " + before[0] + (JoinMore(before[1..]) + ", " + piece) == ", " + before[0] + JoinMore(before[1..]) + ", " + piece;
    }
  }

  // ---------------------------------------------------------------- elements that read the same anywhere

  /** Wherever the node is printed, it adds `text`. */
  ghost predicate ReadsAs(n: Node, text: string, full: bool) {
    forall s: Stream :: Print(n, s, full) == Put(s, text)
  }

  ghost predicate AllRead(ns: Nodes, texts: seq<string>, full: bool) {
    if ns.Empty? then texts == []
    else texts != [] && ReadsAs(ns.head, texts[0], full) && AllRead(ns.rest, texts[1..], full)
  }

  function NonEmpty(texts: seq<string>): seq<string> {
    if texts == [] then [] else (if texts[0] == "" then [] else [texts[0]]) + NonEmpty(texts[1..])
  }

  lemma {:induction false} ListReads(ns: Nodes, texts: seq<string>, s: Stream, full: bool)
    requires AllRead(ns, texts, full)
    ensures WithComma(ns, true, s, full) == Put(s, Join(NonEmpty(texts)))
    decreases SizeNodes(ns)
  {
    hide Print, ReadsAs, Put, NonEmpty, JoinMore;
    if ns.Empty? {
      PutPut(s, "", "");
      NothingLeft();
    } else {
      ReadsHere(ns.head, texts[0], s, full);
      FirstShown(texts);
      if texts[0] == "" {
        PutPut(s, "", "");
        Unmoved(s);
        ListReads(ns.rest, texts[1..], s, full);
      } else {
        PutMoves(s, texts[0]);
        MoreReads(ns.rest, texts[1..], Put(s, texts[0]), full);
        PutPut(s, texts[0], JoinMore(NonEmpty(texts[1..])));
      }
    }
  }

  lemma {:induction false} NothingLeft()
    ensures NonEmpty([]) == [] && Join([]) == "" && JoinMore([]) == ""
  {
  }

  lemma {:induction false} FirstShown(texts: seq<string>)
    requires texts != []
    ensures texts[0] == "" ==> NonEmpty(texts) == NonEmpty(texts[1..])
    ensures texts[0] != "" ==> Join(NonEmpty(texts)) == texts[0] + JoinMore(NonEmpty(texts[1..]))
    ensures texts[0] != "" ==> JoinMore(NonEmpty(texts)) == ", " + texts[0] + JoinMore(NonEmpty(texts[1..]))
  {
    if texts[0] != "" { assert NonEmpty(texts)[1..] == NonEmpty(texts[1..]); }
  }

  lemma {:induction false} Unmoved(s: Stream)
    ensures Rewound(s, |s.text|) == s && Rewound(Put(s, ", "), |s.text|) == s
  {
  }

  lemma {:induction false} PutMoves(s: Stream, text: string)
    ensures |Put(s, text).text| == |s.text| <==> text == ""
  {
  }

  lemma {:induction false} ReadsHere(n: Node, text: string, s: Stream, full: bool)
    requires ReadsAs(n, text, full)
    ensures Print(n, s, full) == Put(s, text)
  {
  }

  lemma {:induction false} MoreReads(ns: Nodes, texts: seq<string>, s: Stream, full: bool)
    requires AllRead(ns, texts, full)
    ensures WithComma(ns, false, s, full) == Put(s, JoinMore(NonEmpty(texts)))
    decreases SizeNodes(ns)
  {
    hide Print, ReadsAs, Put, NonEmpty, JoinMore;
    if ns.Empty? {
      PutPut(s, "", "");
      NothingLeft();
    } else {
      var at := Put(s, ", ");
      ReadsHere(ns.head, texts[0], at, full);
      FirstShown(texts);
      PutMoves(at, texts[0]);
      if texts[0] == "" {
        PutPut(at, "", "");
        Unmoved(s);
        MoreReads(ns.rest, texts[1..], s, full);
      } else {
        MoreReads(ns.rest, texts[1..], Put(at, texts[0]), full);
        PutPut(s, ", ", texts[0]);
        PutPut(s, ", " + texts[0], JoinMore(NonEmpty(texts[1..])));
      }
    }
  }
}
