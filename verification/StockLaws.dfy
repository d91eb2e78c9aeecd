/** Stock is kept three ways: signed movements, a product quantity, and an in/out/set log.
    The ledger keeps them equal. */
module StockLaws {
  import opened Common
  import opened LedgerBooks
  import opened ItemResolver

  /** The level an in/out/set log describes for one product. */
  function Replay(moves: seq<StockMoveRow>, product: nat): int {
    if moves == [] then 0
    else
      var before, m := Replay(moves[..|moves| - 1], product), moves[|moves| - 1];
      if m.product != product then before
      else match m.kind case In => before + m.quantity case Out => before - m.quantity case SetTo => m.quantity
  }

  /** Items and products list the same distinct names, every row refers to a listed item, and
      for each item the movements, the product quantity and the log give the same level. */
  ghost predicate StockAgrees(b: Books) {
    && b.items == ProductNames(b)
    && (forall i, j :: 0 <= i < j < |b.items| ==> b.items[i] != b.items[j])
    && (forall m :: m in b.movements ==> m.item < |b.items|)
    && (forall m :: m in b.stockMoves ==> m.product < |b.products|)
    && (forall i :: 0 <= i < |b.items| ==>
          Level(b.movements, i) == b.products[i].quantity == Replay(b.stockMoves, i))
  }

  lemma LevelPush(ms: seq<MovementRow>, m: MovementRow, item: nat)
    ensures Level(ms + [m], item) == Level(ms, item) + if m.item == item then Signed(m) else 0
  {
    assert (ms + [m])[..|ms|] == ms;
  }

  lemma ReplayPush(ms: seq<StockMoveRow>, m: StockMoveRow, product: nat)
    ensures Replay(ms + [m], product) ==
            if m.product != product then Replay(ms, product)
            else match m.kind case In => Replay(ms, product) + m.quantity
                              case Out => Replay(ms, product) - m.quantity
                              case SetTo => m.quantity
  {
    assert (ms + [m])[..|ms|] == ms;
  }

  lemma {:induction false} NoMovementsNoLevel(ms: seq<MovementRow>, item: nat)
    requires forall m :: m in ms ==> m.item < item
    ensures Level(ms, item) == 0
  {
    if ms != [] {
      assert ms[|ms| - 1] in ms;
      NoMovementsNoLevel(ms[..|ms| - 1], item);
    }
  }

  lemma {:induction false} NoMovesNoReplay(ms: seq<StockMoveRow>, product: nat)
    requires forall m :: m in ms ==> m.product < product
    ensures Replay(ms, product) == 0
  {
    if ms != [] {
      assert ms[|ms| - 1] in ms;
      NoMovesNoReplay(ms[..|ms| - 1], product);
    }
  }

  /** In agreeing books the item row and the product row of a name are at the same position. */
  lemma FindAgrees(b: Books, name: string)
    requires StockAgrees(b)
    ensures Find(b.items, name) == Find(ProductNames(b), name)
  {
  }

  /** The level one entry leaves: additions and removals shift it, a count replaces it. */
  function LevelAfter(before: int, e: Entry): int
    requires e.StockEntry?
  {
    match e.stockAction
    case Add => before + e.quantity
    case Remove => before - e.quantity
    case Set => e.quantity
  }

  function LevelOf(b: Books, name: string): int {
    match Find(b.items, name) case Some(i) => Level(b.movements, i) case None => 0
  }

  lemma FindUnique(names: seq<string>, i: nat)
    requires i < |names| && forall j, k :: 0 <= j < k < |names| ==> names[j] != names[k]
    ensures Find(names, names[i]) == Some(i)
  {
    assert names[i] in names;
  }

  /** What a successful stock entry writes, row by row. */
  lemma MovedBooks(b: Books, key: string, name: string, e: Entry, item: nat)
    requires StockAgrees(b) && e.StockEntry? && MoveStock(b, key, name, e).Applied?
    requires item == match Find(b.items, name) case Some(i) => i case None => |b.items|
    ensures var b', current := MoveStock(b, key, name, e).books, Level(b.movements, item);
            && b'.movements == b.movements + [MovementFor(key, item, current, e.stockAction, e.quantity)]
            && b'.stockMoves == b.stockMoves + [StockMoveRow(key, item, LegacyAction(e.stockAction), e.quantity)]
            && b'.items == (if item < |b.items| then b.items else b.items + [name])
            && b'.products == (if item < |b.items|
                               then b.products[item := ProductRow(name, NewLevel(current, e.stockAction, e.quantity))]
                               else b.products + [ProductRow(name, NewLevel(current, e.stockAction, e.quantity))])
  {
    FindAgrees(b, name);
    var (b1, _) := EnsureItem(b, name);
    assert ProductNames(b1) == ProductNames(b);
  }

  /** The levels of a listed item, and of one that is not listed yet. */
  lemma StandingLevels(b: Books, i: nat)
    requires StockAgrees(b) && i <= |b.items|
    ensures Level(b.movements, i) == Replay(b.stockMoves, i) == if i < |b.items| then b.products[i].quantity else 0
  {
    if i == |b.items| {
      NoMovementsNoLevel(b.movements, i);
      NoMovesNoReplay(b.stockMoves, i);
    }
  }

  /** The three levels of every item after a stock entry. */
  lemma MovedLevels(b: Books, key: string, name: string, e: Entry, item: nat, i: nat)
    requires StockAgrees(b) && e.StockEntry? && MoveStock(b, key, name, e).Applied?
    requires item == match Find(b.items, name) case Some(j) => j case None => |b.items|
    requires i < |MoveStock(b, key, name, e).books.items|
    ensures var b' := MoveStock(b, key, name, e).books;
            && i < |b'.products|
            && Level(b'.movements, i) == b'.products[i].quantity == Replay(b'.stockMoves, i)
            && Level(b'.movements, i) == (if i == item then LevelAfter(Level(b.movements, i), e) else Level(b.movements, i))
            && (i == |b.items| ==> Level(b.movements, i) == 0)
  {
    MovedBooks(b, key, name, e, item);
    StandingLevels(b, i);
    PushedLevels(b, key, e, item, i);
  }

  /** The rows of an entry move the level of its own item and of no other, in both records. */
  lemma PushedLevels(b: Books, key: string, e: Entry, item: nat, i: nat)
    requires e.StockEntry? && Level(b.movements, i) == Replay(b.stockMoves, i)
    ensures var movements := b.movements + [MovementFor(key, item, Level(b.movements, item), e.stockAction, e.quantity)];
            var moves := b.stockMoves + [StockMoveRow(key, item, LegacyAction(e.stockAction), e.quantity)];
            Level(movements, i) == Replay(moves, i) == if i == item then LevelAfter(Level(b.movements, i), e) else Level(b.movements, i)
  {
    LevelPush(b.movements, MovementFor(key, item, Level(b.movements, item), e.stockAction, e.quantity), i);
    ReplayPush(b.stockMoves, StockMoveRow(key, item, LegacyAction(e.stockAction), e.quantity), i);
  }

  /** After a stock entry the two catalogues still list the same distinct names. */
  lemma MovedCatalogue(b: Books, b': Books, item: nat, name: string, quantity: int)
    requires b.items == ProductNames(b)
    requires forall i, j :: 0 <= i < j < |b.items| ==> b.items[i] != b.items[j]
    requires item == match Find(b.items, name) case Some(j) => j case None => |b.items|
    requires b'.items == if item < |b.items| then b.items else b.items + [name]
    requires b'.products == if item < |b.items| then b.products[item := ProductRow(name, quantity)]
                            else b.products + [ProductRow(name, quantity)]
    ensures b'.items == ProductNames(b')
    ensures forall i, j :: 0 <= i < j < |b'.items| ==> b'.items[i] != b'.items[j]
  {
    forall i | 0 <= i < |b'.items| ensures b'.items[i] == b'.products[i].name {
      assert i < |b.items| ==> ProductNames(b)[i] == b.items[i];
    }
    assert b'.items == ProductNames(b');
  }

  /** A stock entry keeps the three records equal. Levels may become negative. */
  lemma MoveStockKeepsAgreement(b: Books, key: string, name: string, e: Entry)
    requires StockAgrees(b) && e.StockEntry?
    requires MoveStock(b, key, name, e).Applied?
    ensures StockAgrees(MoveStock(b, key, name, e).books)
  {
    var b' := MoveStock(b, key, name, e).books;
    var found := Find(b.items, name);
    var item := if found.Some? then found.value else |b.items|;
    MovedBooks(b, key, name, e, item);
    MovedCatalogue(b, b', item, name, NewLevel(Level(b.movements, item), e.stockAction, e.quantity));
    MovedReferences(b, b', item);
    forall i | 0 <= i < |b'.items|
      ensures Level(b'.movements, i) == b'.products[i].quantity == Replay(b'.stockMoves, i)
    {
      MovedLevels(b, key, name, e, item, i);
    }
  }

  lemma MovedReferences(b: Books, b': Books, item: nat)
    requires StockAgrees(b) && |b'.movements| == |b.movements| + 1 && |b'.stockMoves| == |b.stockMoves| + 1
    requires b.movements <= b'.movements && b.stockMoves <= b'.stockMoves
    requires b'.movements[|b.movements|].item == item && b'.stockMoves[|b.stockMoves|].product == item
    requires |b.items| <= |b'.items| && |b.products| <= |b'.products| && item < |b'.items| && item < |b'.products|
    ensures forall m :: m in b'.movements ==> m.item < |b'.items|
    ensures forall m :: m in b'.stockMoves ==> m.product < |b'.products|
  {
    assert b'.movements == b.movements + [b'.movements[|b.movements|]];
    assert b'.stockMoves == b.stockMoves + [b'.stockMoves[|b.stockMoves|]];
  }

  /** A stock entry sets the level of its own item as its action says, and leaves the level of
      every other item as it was. */
  lemma MoveStockLevels(b: Books, key: string, name: string, e: Entry, other: string)
    requires StockAgrees(b) && e.StockEntry?
    requires MoveStock(b, key, name, e).Applied?
    ensures LevelOf(MoveStock(b, key, name, e).books, other) ==
            if other == name then LevelAfter(LevelOf(b, name), e) else LevelOf(b, other)
  {
    var b' := MoveStock(b, key, name, e).books;
    var found := Find(b.items, name);
    var item := if found.Some? then found.value else |b.items|;
    MovedBooks(b, key, name, e, item);
    MoveStockKeepsAgreement(b, key, name, e);
    if other == name {
      FindUnique(b'.items, item);
      MovedLevels(b, key, name, e, item, item);
    } else {
      FindOther(b.items, name, other);
      assert Find(b'.items, other) == Find(b.items, other);
      if Find(b.items, other).Some? {
        MovedLevels(b, key, name, e, item, Find(b.items, other).value);
      }
    }
  }

  lemma {:induction false} FindOther(names: seq<string>, name: string, other: string)
    requires other != name
    ensures Find(names + [name], other) == Find(names, other)
  {
    if names == [] {
      assert Find([name][1..], other) == None;
    } else {
      assert (names + [name])[1..] == names[1..] + [name];
      FindOther(names[1..], name, other);
    }
  }

  /** Transactions and debts do not touch the stock records. */
  lemma EntryKeepsStockAgreement(resolve: Resolver, b: Books, k: KeyedEntry, today: int)
    requires StockAgrees(b) && ApplyEntry(resolve, b, k, today).Applied?
    ensures StockAgrees(ApplyEntry(resolve, b, k, today).books)
  {
    match k.entry
    case TxEntry(_, _, _, _, _) =>
      assert ProductNames(ApplyEntry(resolve, b, k, today).books) == ProductNames(b);
    case DebtEntry(_, _, _, _, _) =>
      assert ProductNames(ApplyEntry(resolve, b, k, today).books) == ProductNames(b);
    case StockEntry(_, _, _) =>
      match resolve(k.entry.product)
      case Matched(c) => MoveStockKeepsAgreement(b, k.key, c.name, k.entry);
      case NoMatch => MoveStockKeepsAgreement(b, k.key, k.entry.product, k.entry);
      case ClarificationNeeded(_) =>
  }

  /** Several entries in one message, in any mix, keep the records equal at every point. */
  lemma {:induction false} EntriesKeepStockAgreement(resolve: Resolver, b: Books, ks: seq<KeyedEntry>, today: int)
    requires StockAgrees(b) && ApplyAll(resolve, b, ks, today).Applied?
    ensures StockAgrees(ApplyAll(resolve, b, ks, today).books)
  {
    if ks != [] {
      var front := ks[..|ks| - 1];
      EntriesKeepStockAgreement(resolve, b, front, today);
      EntryKeepsStockAgreement(resolve, ApplyAll(resolve, b, front, today).books, ks[|ks| - 1], today);
    }
  }

  /* ---------- reporting ---------- */

  datatype StockLine = StockLine(item: string, stock: int)

  /** A reported line is right when it shows a listed item and the level its movements give. */
  predicate RightLine(b: Books, line: StockLine) {
    line.item in b.items && line.stock == LevelOf(b, line.item)
  }

  /** The names that some line has, up to case and surrounding whitespace. */
  function NamesIn(lines: seq<StockLine>): set<string> {
    set j | 0 <= j < |lines| :: Normalised(lines[j].item)
  }

  lemma NamesPush(lines: seq<StockLine>, line: StockLine)
    ensures NamesIn(lines + [line]) == NamesIn(lines) + {Normalised(line.item)}
  {
    var more := lines + [line];
    forall name ensures name in NamesIn(more) <==> name in NamesIn(lines) || name == Normalised(line.item) {
      if name in NamesIn(lines) {
        var j :| 0 <= j < |lines| && Normalised(lines[j].item) == name;
        assert more[j] == lines[j];
      }
      assert more[|lines|] == line;
    }
  }

  /** The lines after the first few have names of their own. */
  predicate NewNames(lines: seq<StockLine>, first: nat) {
    forall j :: first <= j < |lines| ==> Normalised(lines[j].item) !in NamesIn(lines[..j])
  }

  lemma NewNamesPush(lines: seq<StockLine>, line: StockLine, first: nat)
    requires NewNames(lines, first) && Normalised(line.item) !in NamesIn(lines)
    ensures NewNames(lines + [line], first)
  {
    var more := lines + [line];
    forall j | first <= j < |more| ensures Normalised(more[j].item) !in NamesIn(more[..j]) {
      assert more[..j] == if j < |lines| then lines[..j] else lines;
    }
  }

  /** The stock query. It lists the items its first SELECT returned, with the level summed from
      the movements, then each product of the second SELECT whose name is not listed yet, with
      the stored quantity. Both row lists are whatever ORDER BY and LIMIT leave. */
  method QueryStockLevels(b: Books, shownItems: seq<nat>, shownProducts: seq<nat>) returns (lines: seq<StockLine>)
    requires StockAgrees(b)
    requires forall k :: 0 <= k < |shownItems| ==> shownItems[k] < |b.items|
    requires forall k :: 0 <= k < |shownProducts| ==> shownProducts[k] < |b.products|
    ensures forall k :: 0 <= k < |lines| ==> RightLine(b, lines[k])
    ensures |lines| >= |shownItems|
    ensures forall k :: 0 <= k < |shownItems| ==> lines[k].item == b.items[shownItems[k]]
    ensures forall k :: 0 <= k < |shownProducts| ==> Normalised(b.products[shownProducts[k]].name) in NamesIn(lines)
    ensures NewNames(lines, |shownItems|)
  {
    var seen;
    lines, seen := ListItems(b, shownItems);
    ghost var listed := lines;
    for k := 0 to |shownProducts|
      invariant listed <= lines && seen == NamesIn(lines) && NewNames(lines, |shownItems|)
      invariant forall j :: 0 <= j < k ==> Normalised(b.products[shownProducts[j]].name) in seen
      invariant forall j :: 0 <= j < |lines| ==> RightLine(b, lines[j])
    {
      var product := b.products[shownProducts[k]];
      if Normalised(product.name) !in seen {
        var line := StockLine(product.name, product.quantity);
        ProductLineIsRight(b, shownProducts[k]);
        NamesPush(lines, line);
        NewNamesPush(lines, line, |shownItems|);
        lines := lines + [line];
        seen := seen + {Normalised(product.name)};
      }
    }
    assert forall k :: 0 <= k < |shownItems| ==> lines[k] == listed[k];
  }

  lemma ProductLineIsRight(b: Books, i: nat)
    requires StockAgrees(b) && i < |b.products|
    ensures RightLine(b, StockLine(b.products[i].name, b.products[i].quantity))
  {
    assert ProductNames(b)[i] == b.products[i].name;
    FindUnique(b.items, i);
  }

  /** The first loop of the query, with the set of names it has seen. */
  method ListItems(b: Books, shownItems: seq<nat>) returns (lines: seq<StockLine>, seen: set<string>)
    requires StockAgrees(b)
    requires forall k :: 0 <= k < |shownItems| ==> shownItems[k] < |b.items|
    ensures |lines| == |shownItems| && seen == NamesIn(lines)
    ensures forall k :: 0 <= k < |lines| ==> RightLine(b, lines[k]) && lines[k].item == b.items[shownItems[k]]
  {
    lines, seen := [], {};
    for k := 0 to |shownItems|
      invariant |lines| == k && seen == NamesIn(lines)
      invariant forall j :: 0 <= j < k ==> RightLine(b, lines[j]) && lines[j].item == b.items[shownItems[j]]
    {
      var i := shownItems[k];
      var line := StockLine(b.items[i], Level(b.movements, i));
      FindUnique(b.items, i);
      NamesPush(lines, line);
      lines := lines + [line];
      seen := seen + {Normalised(b.items[i])};
    }
  }
}
