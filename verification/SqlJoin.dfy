/** Joining statements into a script, and splitting it again. */
module SqlJoin {
  import opened SqlLexer
  import opened SqlScript

  /** A statement that can stand in a script: tight, not empty, its strings closed,
      without a semicolon or a comment outside of them. */
  predicate CleanStatement(t: string) {
    && t != "" && Tight(t)
    && forall p <- Lex(t) :: (p.Plain? || p.Quoted?) && Closed(p)
  }

  /** White space and complete comments. */
  predicate Gap(g: string) {
    forall p <- Lex(g) :: Closed(p) && (p.Comment? || (p.Plain? && IsBlank(p.c)))
  }

  datatype Item = Item(before: string, statement: string, after: string)

  predicate CleanItem(it: Item) { Gap(it.before) && CleanStatement(it.statement) && Gap(it.after) }

  /** The statement ends in a dash and the gap right behind it starts with a dash comment, so
      that the dash becomes part of the comment. */
  predicate Fused(it: Item) { !Separate(Lex(it.statement), it.after) }

  /** What is left of a statement in front of a gap. */
  function Left(t: string, a: string): string
    requires t != ""
  {
    if Separate(Lex(t), a) then t else t[..|t| - 1]
  }

  /** What the splitter makes of an item. */
  function Kept(it: Item): seq<string>
    requires CleanItem(it)
  {
    var t := Trim(Left(it.statement, it.after));
    if t == "" then [] else [t]
  }

  function KeptOf(items: seq<Item>): seq<string>
    requires forall it <- items :: CleanItem(it)
  {
    if items == [] then [] else Kept(items[0]) + KeptOf(items[1..])
  }

  function ItemText(it: Item): string { it.before + it.statement + it.after }

  function Script(items: seq<Item>, tail: string): string {
    if items == [] then tail else ItemText(items[0]) + ";" + Script(items[1..], tail)
  }

  function StatementsOf(items: seq<Item>): seq<string> {
    if items == [] then [] else [items[0].statement] + StatementsOf(items[1..])
  }

  lemma {:induction false} VisibleConcat(a: seq<Piece>, b: seq<Piece>)
    ensures Visible(a + b) == Visible(a) + Visible(b)
  {
    if a == [] {
      assert a + b == b;
    } else {
      assert (a + b)[1..] == a[1..] + b;
      VisibleConcat(a[1..], b);
    }
  }

  lemma {:induction false} GapIsBlank(ps: seq<Piece>)
    requires forall p <- ps :: p.Comment? || (p.Plain? && IsBlank(p.c))
    ensures AllBlank(Visible(ps))
  {
    if ps != [] {
      assert ps[0] in ps;
      GapIsBlank(ps[1..]);
    }
  }

  lemma {:induction false} NoCommentsVisible(ps: seq<Piece>)
    requires forall p <- ps :: !p.Comment?
    ensures Visible(ps) == Flatten(ps)
  {
    if ps != [] {
      assert ps[0] in ps;
      NoCommentsVisible(ps[1..]);
    }
  }

  lemma {:induction false} RawOneStatement(ps: seq<Piece>, rest: seq<Piece>)
    requires forall p <- ps :: !p.Semicolon?
    ensures Raw(ps + rest) == [Visible(ps) + Raw(rest)[0]] + Raw(rest)[1..]
  {
    if ps == [] {
      assert ps + rest == rest && "" + Raw(rest)[0] == Raw(rest)[0];
    } else {
      var first, tail := ps[0], ps[1..];
      assert first in ps;
      assert (ps + rest)[1..] == tail + rest && (ps + rest)[0] == first;
      RawOneStatement(tail, rest);
      var rs := Raw(tail + rest);
      if !first.Comment? {
        assert PieceText(first) + (Visible(tail) + Raw(rest)[0]) == PieceText(first) + Visible(tail) + Raw(rest)[0];
        assert rs[1..] == Raw(rest)[1..];
      } else {
        assert "" + Visible(tail) == Visible(tail);
      }
    }
  }

  lemma GapThen(g: string, rest: string)
    requires Gap(g)
    ensures Lex(g + rest) == Lex(g) + Lex(rest)
  {
    var ps := Lex(g);
    if ps != [] {
      assert ps[|ps| - 1] in ps;
    }
    LexConcat(g, rest);
  }

  lemma CleanIsClosed(t: string)
    requires CleanStatement(t)
    ensures AllClosed(Lex(t))
  {
  }

  lemma {:induction false} GrammaticalParts(a: seq<Piece>, b: seq<Piece>)
    requires Grammatical(a + b) && AllClosed(a)
    ensures Grammatical(a) && Grammatical(b) && Separate(a, Flatten(b))
  {
    if a == [] {
      assert a + b == b;
    } else {
      assert a[0] in a && forall p <- a[1..] :: p in a;
      assert (a + b)[1..] == a[1..] + b && (a + b)[0] == a[0];
      GrammaticalParts(a[1..], b);
      FlattenConcat(a[1..], b);
      hide Closed, Open;
    }
  }

  lemma ClosedParts(t: string)
    requires AllClosed(Lex(t))
    ensures Grammatical(Lex(t)) && Flatten(Lex(t)) == t
  {
    LexGrammatical(t);
    FlattenLex(t);
  }

  lemma GapStart(a: string)
    requires Gap(a) && a != ""
    ensures Lex(a) != [] && PieceText(Lex(a)[0]) != "" && PieceText(Lex(a)[0])[0] == a[0]
    ensures Closed(Lex(a)[0]) && (Lex(a)[0].Comment? || (Lex(a)[0].Plain? && IsBlank(Lex(a)[0].c)))
  {
    assert Lex(a)[0] == FirstPiece(a) && FirstPiece(a) in Lex(a);
    hide Lex, Closed, FirstPiece;
  }

  lemma DashComment(p: Piece, c: char)
    requires Closed(p) && (p.Comment? || (p.Plain? && IsBlank(p.c)))
    requires PieceText(p) != "" && PieceText(p)[0] == c && (c == '-' || c == '*')
    ensures c == '-' && p.Comment? && ClosedLine(p.text) && p.text[0] == '-'
  {
  }

  lemma LastPiece(t: string, c: char)
    requires CleanStatement(t) && Lex(t) != [] && Lex(t)[|Lex(t)| - 1].Plain? && Opens(Lex(t)[|Lex(t)| - 1].c, c)
    ensures (c == '-' && Lex(t)[|Lex(t)| - 1] == Plain('-')) || c == '*'
  {
    hide Lex, CleanStatement;
  }

  /** How a fused statement and gap start and end. */
  lemma FusedSeam(t: string, a: string)
    requires CleanStatement(t) && Gap(a) && !Separate(Lex(t), a)
    ensures Lex(t) != [] && Lex(t)[|Lex(t)| - 1] == Plain('-')
    ensures Lex(a) != [] && Lex(a)[0].Comment? && ClosedLine(Lex(a)[0].text) && Lex(a)[0].text[0] == '-'
  {
    hide Lex, CleanStatement, Gap, Closed, ClosedLine, PieceText, Opens;
    LastPiece(t, a[0]);
    GapStart(a);
    DashComment(Lex(a)[0], a[0]);
  }

  /** The two pieces of a fused seam are one comment. */
  lemma DashJoinsComment(text: string)
    requires ClosedLine(text) && text[0] == '-'
    ensures ClosedLine("-" + text) && Grammatical([Comment("-" + text)])
  {
    var t := "-" + text;
    assert text[..2] == "--" && t[..2] == "--" by {
      assert LineStart(text) && text[0] == '-';
      assert t[0] == '-' && t[1] == '-';
    }
    assert t[..|t| - 1] == "-" + text[..|text| - 1];
  }

  lemma FusedGrammatical(front: seq<Piece>, tail: seq<Piece>, text: string)
    requires Grammatical(front + [Plain('-')]) && AllClosed(front)
    requires Grammatical([Comment(text)] + tail) && ClosedLine(text) && text[0] == '-'
    ensures Closed(Comment("-" + text)) && Grammatical(front + ([Comment("-" + text)] + tail))
  {
    var fused := [Comment("-" + text)] + tail;
    GrammaticalParts(front, [Plain('-')]);
    DashJoinsComment(text);
    assert ([Comment(text)] + tail)[1..] == tail && fused[1..] == tail;
    assert Grammatical(fused);
    FlattenFused(front, tail, text);
    assert Separate(front, Flatten(fused)) by {
      assert Flatten(fused)[0] == '-' && Flatten([Plain('-')])[0] == '-';
      hide Flatten, Grammatical, AllClosed, ClosedLine;
    }
    hide *;
    GrammaticalConcat(front, fused);
  }

  lemma CutLast(ps: seq<Piece>, t: string)
    requires ps != [] && ps[|ps| - 1] == Plain('-') && Flatten(ps) == t && AllClosed(ps)
    ensures var front := ps[..|ps| - 1];
            && ps == front + [Plain('-')] && AllClosed(front)
            && t != "" && Flatten(front) == t[..|t| - 1]
  {
    var front := ps[..|ps| - 1];
    assert ps == front + [Plain('-')];
    assert forall p <- front :: p in ps;
    FlattenConcat(front, [Plain('-')]);
    assert [Plain('-')][1..] == [] && Flatten([Plain('-')]) == "-" + "" == "-";
    hide Closed;
    assert t == Flatten(front) + "-";
  }

  /** The pieces of a fused statement and gap: all but the dash, the longer comment, and
      the rest of the gap. */
  lemma FusedLex(t: string, a: string)
    requires CleanStatement(t) && Gap(a) && !Separate(Lex(t), a)
    ensures Lex(t) != [] && Lex(a) != [] && Lex(a)[0].Comment?
    ensures Closed(Comment("-" + Lex(a)[0].text))
    ensures Lex(t + a) == Lex(t)[..|Lex(t)| - 1] + ([Comment("-" + Lex(a)[0].text)] + Lex(a)[1..])
    ensures t != "" && Flatten(Lex(t)[..|Lex(t)| - 1]) == t[..|t| - 1]
  {
    FusedSeam(t, a);
    CleanIsClosed(t);
    GapIsClosed(a);
    ClosedParts(t);
    ClosedParts(a);
    hide *;
    var ps, qs := Lex(t), Lex(a);
    var front, tail, text := ps[..|ps| - 1], qs[1..], qs[0].text;
    CutLast(ps, t);
    assert qs == [Comment(text)] + tail;
    FusedGrammatical(front, tail, text);
    FlattenFused(front, tail, text);
    LexFlatten(front + ([Comment("-" + text)] + tail));
  }

  lemma GapIsClosed(g: string)
    requires Gap(g)
    ensures AllClosed(Lex(g))
  {
    hide Closed;
  }

  lemma FlattenOne(p: Piece, tail: seq<Piece>)
    ensures Flatten([p] + tail) == PieceText(p) + Flatten(tail) && Flatten([p]) == PieceText(p)
  {
    assert ([p] + tail)[1..] == tail && [p][1..] == [] && PieceText(p) + "" == PieceText(p);
  }

  lemma FlattenFused(front: seq<Piece>, tail: seq<Piece>, text: string)
    ensures var fused := [Comment("-" + text)] + tail;
            && Flatten(fused) == "-" + (text + Flatten(tail))
            && Flatten(front + fused) == Flatten(front + [Plain('-')]) + Flatten([Comment(text)] + tail)
    ensures Flatten([Plain('-')]) == "-"
  {
    var fused := [Comment("-" + text)] + tail;
    FlattenOne(Comment("-" + text), tail);
    FlattenOne(Comment(text), tail);
    FlattenOne(Plain('-'), []);
    FlattenConcat(front, fused);
    FlattenConcat(front, [Plain('-')]);
    hide Flatten;
    Assoc("-", text, Flatten(tail));
    Assoc(Flatten(front), "-", text + Flatten(tail));
  }

  predicate Whole(ps: seq<Piece>) { AllClosed(ps) && forall p <- ps :: !p.Semicolon? }

  lemma WholeConcat(a: seq<Piece>, b: seq<Piece>)
    ensures Whole(a + b) <==> Whole(a) && Whole(b)
  {
    hide Closed;
    assert forall p <- a :: p in a + b;
    assert forall p <- b :: p in a + b;
  }

  lemma WholeStatement(t: string)
    requires CleanStatement(t)
    ensures Whole(Lex(t)) && forall p <- Lex(t) :: !p.Comment?
  {
    hide Lex, Closed;
  }

  lemma WholeGap(g: string)
    requires Gap(g)
    ensures Whole(Lex(g)) && AllBlank(Visible(Lex(g)))
  {
    GapVisible(g);
    hide Lex, Closed, Visible;
  }

  lemma WholeFront(ps: seq<Piece>)
    requires Whole(ps) && ps != [] && forall p <- ps :: !p.Comment?
    ensures var front := ps[..|ps| - 1]; Whole(front) && Visible(front) == Flatten(front)
  {
    var front := ps[..|ps| - 1];
    hide Closed, Visible, Flatten;
    assert forall p <- front :: p in ps;
    NoCommentsVisible(front);
  }

  lemma WholeTail(g: string, comment: Piece)
    requires Gap(g) && Lex(g) != [] && comment.Comment? && Closed(comment)
    ensures Whole([comment] + Lex(g)[1..])
    ensures AllBlank(Visible([comment] + Lex(g)[1..]))
  {
    var tail := Lex(g)[1..];
    hide Lex, Closed;
    assert forall p <- tail :: p in Lex(g);
    GapIsBlank(tail);
    assert ([comment] + tail)[1..] == tail;
  }

  /** What a statement with the gap behind it spells, comments aside. */
  lemma SeamPieces(t: string, a: string) returns (w: string)
    requires CleanStatement(t) && Gap(a)
    ensures Whole(Lex(t + a))
    ensures AllBlank(w) && Visible(Lex(t + a)) == Left(t, a) + w
  {
    WholeStatement(t);
    WholeGap(a);
    if Separate(Lex(t), a) {
      w := Visible(Lex(a));
      CleanIsClosed(t);
      hide Closed, CleanStatement, Gap, Lex, Visible, Separate;
      LexConcat(t, a);
      StatementVisible(t);
      VisibleConcat(Lex(t), Lex(a));
      WholeConcat(Lex(t), Lex(a));
    } else {
      FusedLex(t, a);
      var front, comment := Lex(t)[..|Lex(t)| - 1], Comment("-" + Lex(a)[0].text);
      var tail := [comment] + Lex(a)[1..];
      w := Visible(tail);
      hide Closed, CleanStatement, Gap, Lex, Visible, Separate, Whole, AllBlank;
      WholeFront(Lex(t));
      WholeTail(a, comment);
      VisibleConcat(front, tail);
      WholeConcat(front, tail);
    }
  }

  lemma ItemLex(it: Item)
    requires CleanItem(it)
    ensures Lex(ItemText(it)) == Lex(it.before) + Lex(it.statement + it.after)
  {
    var b, t, a := it.before, it.statement, it.after;
    assert b + t + a == b + (t + a);
    hide Lex;
    GapThen(b, t + a);
  }

  lemma ItemIsClosed(it: Item)
    requires CleanItem(it)
    ensures Whole(Lex(ItemText(it)))
  {
    ItemLex(it);
    var w := SeamPieces(it.statement, it.after);
    WholeGap(it.before);
    hide Lex, Closed, Gap, CleanStatement, Left, Whole;
    WholeConcat(Lex(it.before), Lex(it.statement + it.after));
  }

  lemma GapVisible(g: string)
    requires Gap(g)
    ensures AllBlank(Visible(Lex(g)))
  {
    GapIsBlank(Lex(g));
  }

  lemma StatementVisible(t: string)
    requires CleanStatement(t)
    ensures Visible(Lex(t)) == t
  {
    NoCommentsVisible(Lex(t));
    FlattenLex(t);
  }

  lemma Assoc(x: string, y: string, z: string)
    ensures x + (y + z) == x + y + z
  {
  }

  lemma TrimAround(v: string, t: string, w: string)
    requires AllBlank(v) && AllBlank(w)
    ensures Trim(v + (t + w)) == Trim(t)
  {
    TrimIs(t, Trim(t));
    var x, y :| AllBlank(x) && AllBlank(y) && t == x + Trim(t) + y;
    assert v + (t + w) == (v + x) + Trim(t) + (y + w);
    hide Trim;
    TrimPadded(v + x, Trim(t), y + w);
  }

  lemma TightIsTrimmed(t: string)
    requires Tight(t)
    ensures Trim(t) == t
  {
    TrimPadded("", t, "");
    assert "" + t + "" == t;
  }

  /** An item spells what is left of its statement, between blanks. */
  lemma ItemVisible(it: Item)
    requires CleanItem(it)
    ensures var t := Trim(Visible(Lex(ItemText(it))));
            Kept(it) == if t == "" then [] else [t]
  {
    var b, t, a := it.before, it.statement, it.after;
    ItemLex(it);
    WholeGap(b);
    hide Lex, Visible, Trim, Gap, Left, Closed, Whole, ItemText;
    VisibleConcat(Lex(b), Lex(t + a));
    var w := SeamPieces(t, a);
    TrimAround(Visible(Lex(b)), Left(t, a), w);
  }

  /** A fused item loses something, and another one does not. */
  lemma KeptIs(it: Item)
    requires CleanItem(it)
    ensures Kept(it) == [it.statement] <==> !Fused(it)
    ensures |Kept(it)| <= 1
  {
    var t := it.statement;
    hide Lex, Trim, Gap, Separate, Tight;
    if Fused(it) {
      TrimShortens(t[..|t| - 1]);
    } else {
      TightIsTrimmed(t);
    }
  }

  lemma SemicolonLex(rest: string)
    ensures Lex(";" + rest) == [Semicolon] + Lex(rest)
  {
    assert (";" + rest)[1..] == rest;
  }

  lemma ItemEnds(it: Item, rest: string)
    requires CleanItem(it)
    ensures Lex(ItemText(it) + (";" + rest)) == Lex(ItemText(it)) + ([Semicolon] + Lex(rest))
  {
    ItemIsClosed(it);
    SemicolonLex(rest);
    assert Separate(Lex(ItemText(it)), ";" + rest);
    hide Lex, CleanItem;
    LexConcat(ItemText(it), ";" + rest);
  }

  lemma RawAtEnd(ps: seq<Piece>, rest: seq<Piece>)
    requires forall p <- ps :: !p.Semicolon?
    ensures Raw(ps + ([Semicolon] + rest)) == [Visible(ps)] + Raw(rest)
  {
    var more := [Semicolon] + rest;
    assert more[1..] == rest;
    RawOneStatement(ps, more);
    assert Raw(more) == [""] + Raw(rest);
    assert Visible(ps) + "" == Visible(ps);
  }

  /** An item and its semicolon give what is left of the item's statement. */
  lemma ItemQueries(it: Item, rest: string)
    requires CleanItem(it)
    ensures Queries(ItemText(it) + ";" + rest) == Kept(it) + Queries(rest)
  {
    var ps := Lex(ItemText(it));
    ItemIsClosed(it);
    ItemVisible(it);
    hide Lex, CleanItem, Kept, Trim, Visible, Raw, Trimmed, AllClosed;
    Assoc(ItemText(it), ";", rest);
    ItemEnds(it, rest);
    RawAtEnd(ps, Lex(rest));
    TrimmedCons(Visible(ps), Raw(Lex(rest)));
  }

  lemma LastItemQueries(it: Item)
    requires CleanItem(it)
    ensures Queries(ItemText(it)) == Kept(it)
  {
    var ps := Lex(ItemText(it));
    ItemIsClosed(it);
    ItemVisible(it);
    hide Lex, CleanItem, Kept, Trim, Visible, AllClosed;
    RawOneStatement(ps, []);
    assert ps + [] == ps && Visible(ps) + "" == Visible(ps);
    TrimmedCons(Visible(ps), []);
  }

  lemma GapQueries(g: string)
    requires Gap(g)
    ensures Queries(g) == []
  {
    var ps := Lex(g);
    GapIsBlank(ps);
    RawOneStatement(ps, []);
    assert ps + [] == ps && Visible(ps) + "" == Visible(ps);
    assert Visible(ps) + "" + "" == Visible(ps);
    TrimPadded(Visible(ps), "", "");
    TrimmedCons(Visible(ps), []);
  }

  /** Statements joined by semicolons, with any white space and any complete comments around
      them, are split into what each item leaves. */
  lemma {:induction false} ScriptQueries(items: seq<Item>, tail: string)
    requires (forall it <- items :: CleanItem(it)) && Gap(tail)
    ensures Queries(Script(items, tail)) == KeptOf(items)
  {
    hide Queries, CleanItem, ItemText, Kept, Gap;
    if items == [] {
      GapQueries(tail);
    } else {
      assert items[0] in items;
      ItemQueries(items[0], Script(items[1..], tail));
      ScriptQueries(items[1..], tail);
    }
  }

  /** The last semicolon may be missing. */
  lemma {:induction false} OpenScriptQueries(items: seq<Item>, last: Item)
    requires (forall it <- items :: CleanItem(it)) && CleanItem(last)
    ensures Queries(Script(items, ItemText(last))) == KeptOf(items) + Kept(last)
  {
    hide Queries, CleanItem, ItemText, Kept;
    if items == [] {
      LastItemQueries(last);
    } else {
      assert items[0] in items;
      ItemQueries(items[0], Script(items[1..], ItemText(last)));
      OpenScriptQueries(items[1..], last);
      assert Kept(items[0]) + (KeptOf(items[1..]) + Kept(last)) == Kept(items[0]) + KeptOf(items[1..]) + Kept(last);
    }
  }

  lemma FirstDiffers(first: seq<string>, kept: seq<string>, statement: string, statements: seq<string>)
    requires |first| <= 1 && |kept| <= |statements|
    ensures first + kept == [statement] + statements <==> first == [statement] && kept == statements
  {
    if first + kept == [statement] + statements {
      assert |first| == 1;
      assert first[0] == (first + kept)[0] && kept == (first + kept)[1..];
    }
  }

  /** Nothing makes up for a fused item: the lists agree only if no item is fused. */
  lemma {:induction false} KeptIffNotFused(items: seq<Item>)
    requires forall it <- items :: CleanItem(it)
    ensures |KeptOf(items)| <= |StatementsOf(items)|
    ensures KeptOf(items) == StatementsOf(items) <==> forall it <- items :: !Fused(it)
  {
    if items != [] {
      var it, rest := items[0], items[1..];
      assert it in items && forall x <- rest :: x in items;
      assert items == [it] + rest;
      KeptIffNotFused(rest);
      KeptIs(it);
      hide CleanItem, Fused, Kept;
      FirstDiffers(Kept(it), KeptOf(rest), it.statement, StatementsOf(rest));
    }
  }

  /** Splitting undoes joining exactly when no item is fused: then statements joined by
      semicolons, with any white space and any complete comments around them, are split into
      exactly those statements, and otherwise they never are. */
  lemma SplitUndoesJoin(items: seq<Item>, tail: string)
    requires (forall it <- items :: CleanItem(it)) && Gap(tail)
    ensures Queries(Script(items, tail)) == StatementsOf(items) <==> forall it <- items :: !Fused(it)
  {
    hide CleanItem, Gap, Queries, Fused;
    ScriptQueries(items, tail);
    KeptIffNotFused(items);
  }

  lemma {:induction false} KeptAtEnd(items: seq<Item>, last: Item)
    requires forall it <- items + [last] :: CleanItem(it)
    ensures (forall it <- items :: CleanItem(it)) && CleanItem(last)
    ensures KeptOf(items + [last]) == KeptOf(items) + Kept(last)
    ensures StatementsOf(items + [last]) == StatementsOf(items) + [last.statement]
  {
    var all := items + [last];
    hide CleanItem, Kept;
    assert last in all && forall it <- items :: it in all;
    if items != [] {
      assert all[1..] == items[1..] + [last] && all[0] == items[0];
      KeptAtEnd(items[1..], last);
      assert Kept(items[0]) + (KeptOf(items[1..]) + Kept(last)) == Kept(items[0]) + KeptOf(items[1..]) + Kept(last);
    } else {
      assert all == [last] && all[1..] == [];
    }
  }

  /** The same when the last statement has no semicolon. */
  lemma SplitUndoesJoinOpen(items: seq<Item>, last: Item)
    requires forall it <- items + [last] :: CleanItem(it)
    ensures Queries(Script(items, ItemText(last))) == StatementsOf(items + [last])
            <==> forall it <- items + [last] :: !Fused(it)
  {
    hide CleanItem, Queries, Fused, KeptOf, Kept, StatementsOf;
    KeptAtEnd(items, last);
    OpenScriptQueries(items, last);
    KeptIffNotFused(items + [last]);
  }

  /** It does happen: a statement that is a dash, right in front of a dash comment, is not
      sent at all. */
  lemma DashIsSwallowed()
    ensures var it := Item("", "-", "--\n");
            CleanItem(it) && Fused(it) && Queries(ItemText(it) + ";") == []
  {
    var it := Item("", "-", "--\n");
    LexOfDash();
    ItemQueries(it, "");
    assert ItemText(it) + ";" + "" == ItemText(it) + ";";
    assert it.statement[..0] == "" && Trim("") == "";
    assert Queries("") == [] && Kept(it) == [];
  }

  lemma LexOfDash()
    ensures Lex("-") == [Plain('-')] && Lex("--\n") == [Comment("--\n")] && Lex("") == []
    ensures ClosedLine("--\n")
  {
    var dash, line := [Plain('-')], "--\n";
    assert dash[1..] == [] && Flatten(dash) == "-" + "" == "-";
    assert Grammatical(dash);
    LexFlatten(dash);
    assert line[..2] == "--" && line[..|line| - 1] == "--" && line[2] == '\n';
    assert ClosedLine(line);
    var comment := [Comment(line)];
    assert comment[1..] == [] && Flatten(comment) == line + "" == line;
    assert Grammatical(comment);
    LexFlatten(comment);
  }

  // ----- Splitting again -----

  lemma {:induction false} VisibleLength(ps: seq<Piece>)
    requires Grammatical(ps)
    ensures |Visible(ps)| <= |Flatten(ps)|
    ensures (exists p <- ps :: p.Comment?) ==> |Visible(ps)| < |Flatten(ps)|
  {
    if ps != [] {
      FirstIs(ps[0], Flatten(ps[1..]));
      VisibleLength(ps[1..]);
    }
  }

  lemma {:induction false} RawCount(ps: seq<Piece>)
    ensures (exists p <- ps :: p.Semicolon?) ==> |Raw(ps)| > 1
  {
    if ps != [] {
      RawCount(ps[1..]);
    }
  }

  lemma {:induction false} JoinLength(rs: seq<string>, i: nat)
    requires i < |rs|
    ensures |JoinSemicolons(rs)| >= |rs[i]| + |rs| - 1
  {
    if |rs| > 1 {
      JoinLength(rs[1..], if i == 0 then 0 else i - 1);
    }
  }

  lemma {:induction false} TrimmedComesFrom(rs: seq<string>, q: string) returns (i: nat)
    requires q in Trimmed(rs)
    ensures i < |rs| && Trim(rs[i]) == q
  {
    if Trim(rs[0]) == q {
      i := 0;
    } else {
      i := TrimmedComesFrom(rs[1..], q);
      i := i + 1;
    }
  }

  lemma TrimShortens(s: string)
    ensures |Trim(s)| <= |s|
  {
    TrimIs(s, Trim(s));
  }

  /** A comment or a semicolon leaves every statement shorter than the text. */
  lemma RawLength(ps: seq<Piece>, i: nat)
    requires Grammatical(ps) && i < |Raw(ps)|
    ensures (exists p <- ps :: p.Comment? || p.Semicolon?) ==> |Trim(Raw(ps)[i])| < |Flatten(ps)|
  {
    TrimShortens(Raw(ps)[i]);
    JoinLength(Raw(ps), i);
    RawIsVisible(ps);
    VisibleLength(ps);
    RawCount(ps);
  }

  lemma CleanSplitsToItself(q: string)
    requires q != "" && Tight(q) && forall p <- Lex(q) :: p.Plain? || p.Quoted?
    ensures Queries(q) == [q]
  {
    hide Lex, Visible, Flatten, Trim, Tight;
    var ps := Lex(q);
    FlattenLex(q);
    NoCommentsVisible(ps);
    RawOneStatement(ps, []);
    assert ps + [] == ps && q + "" == q;
    assert "" + q + "" == q;
    TrimPadded("", q, "");
    TrimmedCons(q, []);
  }

  /** A tight text is one query, itself, exactly when it holds no comment and no
      semicolon outside of strings. */
  lemma {:induction false} SplitsToItself(q: string)
    requires q != "" && Tight(q)
    ensures Queries(q) == [q] <==> forall p <- Lex(q) :: p.Plain? || p.Quoted?
  {
    var ps := Lex(q);
    if forall p <- ps :: p.Plain? || p.Quoted? {
      CleanSplitsToItself(q);
    } else {
      assert exists p <- ps :: p.Comment? || p.Semicolon?;
      FlattenLex(q);
      LexGrammatical(q);
      if Queries(q) == [q] {
        var i := TrimmedComesFrom(Raw(ps), q);
        RawLength(ps, i);
      }
    }
  }

  lemma DashThen(ps: seq<Piece>, rest: string)
    requires Grammatical(ps) && Flatten(ps) == rest && (rest == "" || rest[0] != '-')
    ensures var all := [Plain('-')] + ps;
            && Grammatical(all) && Flatten(all) == "-" + rest
            && Raw(all) == ["-" + Raw(ps)[0]] + Raw(ps)[1..]
  {
    assert ([Plain('-')] + ps)[1..] == ps;
  }

  lemma EmptyBlockThen(ps: seq<Piece>)
    requires Grammatical(ps)
    ensures var all := [Comment("/**/")] + ps;
            Grammatical(all) && Flatten(all) == "/**/" + Flatten(ps) && Raw(all) == Raw(ps)
  {
    assert ([Comment("/**/")] + ps)[1..] == ps;
    assert ClosedBlock("/**/") by {
      var t := "/**/";
      assert t[..2] == "/*" && t[2..] == "*/" && t[2..3] == "*";
    }
  }

  lemma NoPieces()
    ensures Raw([]) == [""] && Flatten([]) == "" && Grammatical([])
  {
  }

  lemma DashesAreComment()
    ensures Lex("--") == [Comment("--")]
  {
    var t := "--";
    assert t[..2] == "--" && t + "" == t && t[2..] == "";
    FirstLine(t, "");
    assert Lex(t[2..]) == [];
  }

  /** So splitting what was sent is not always the identity: deleting a comment can leave
      a text that is itself a comment. */
  lemma DeletedCommentLeavesComment()
    ensures Raw(Lex("-/**/-")) == ["--"] && Lex("--") == [Comment("--")]
  {
    hide *;
    var dash, block := [Plain('-')], [Comment("/**/")];
    var last := dash + [];
    NoPieces();
    DashThen([], "");
    assert Flatten(last) == "-" + "" == "-" && Raw(last) == ["-" + ""] + [""][1..] == ["-"];
    EmptyBlockThen(last);
    assert Flatten(block + last) == "/**/" + "-" == "/**/-";
    DashThen(block + last, "/**/-");
    assert Flatten(dash + (block + last)) == "-" + "/**/-" == "-/**/-";
    assert "-" + "-" == "--" && ["-"][1..] == [];
    assert Raw(dash + (block + last)) == ["--"] + [];
    LexFlatten(dash + (block + last));
    DashesAreComment();
  }
}
