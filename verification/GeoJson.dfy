/** `GeoLite2PP::DB::create_json_from_entry`: the walk over the preorder entry list that
    prints a database record, rewriting the `next` pointers it is handed by reference. */
module GeoJson {
  import opened Text

  // ---------------------------------------------------------------- entries

  /** One entry of the list, by its data type. Doubles and floats carry their printed form. */
  datatype Entry =
    | EString(s: string)
    | EMap(size: nat)
    | EArray(size: nat)
    | ENumber(n: nat)        // uint16, uint32, uint64
    | EInt32(i: int)
    | EReal(text: string)    // double, float
    | EBool(b: bool)
    | EInvalid               // extended, pointer, container, end marker, bytes, uint128, unknown
    | ENoData

  function Indent(depth: nat): string { seq(depth * 4, _ => ' ') }

  function Quote(s: string): string { "\"" + s + "\"" }

  /** An INT32 entry is printed through the unsigned member of its union. */
  function AsUnsigned(i: int): nat { i % 0x1_0000_0000 }

  function Printable(e: Entry): bool { e.ENumber? || e.EInt32? || e.EReal? || e.EBool? }

  function Scalar(e: Entry): string
    requires Printable(e)
  {
    match e
    case ENumber(n) => ToString(n)
    case EInt32(i) => ToString(AsUnsigned(i))
    case EReal(t) => t
    case EBool(b) => if b then "true" else "false"
  }

  /** A negative INT32 is not printed as the number it is. */
  lemma Int32PrintedIffNonNegative(i: int)
    requires FitsInt(i)
    ensures Scalar(EInt32(i)) == ToString(i) <==> i >= 0
  {
    if i < 0 { assert ToString(i)[0] == '-' && IsDigit(Decimal(AsUnsigned(i))[0]); }
  }

  /** Thrown: an exception. Printed: the text, and the entries left after the walk. */
  datatype Walked = Thrown | Printed(text: string, rest: seq<Entry>)

  ghost predicate IsRest(r: Walked, es: seq<Entry>) {
    r.Printed? ==> |r.rest| <= |es| && r.rest == es[|es| - |r.rest|..]
  }

  /** The entry of the function: a map counts its keys and values, in a 32-bit number. */
  function Enter(es: seq<Entry>, depth: nat, size: nat, inArray: bool): (r: Walked)
    ensures IsRest(r, es)
    decreases |es|, 2
  {
    var dataSize := if inArray then size else size * 2 % 0x1_0000_0000;
    if dataSize == 0 then Printed("", es)
    else if |es| == 0 then Thrown
    else Walk(es, depth, dataSize, inArray)
  }

  predicate IsValue(dataSize: nat, inArray: bool) { inArray || dataSize % 2 == 1 }

  predicate IsKey(dataSize: nat, inArray: bool) { inArray || !IsValue(dataSize, inArray) }

  /** What one entry prints, with the entries below it. */
  function Cell(es: seq<Entry>, depth: nat, isValue: bool): (r: Walked)
    requires |es| > 0
    ensures r.Printed? ==> |r.rest| < |es| && IsRest(r, es)
    decreases |es|, 0
  {
    var tail := es[1..];
    match es[0]
    case EString(s) => Printed(Quote(s) + if isValue then "" else " : ", tail)
    case EMap(n) =>
      (match Enter(tail, depth + 1, n, false)
       case Thrown => Thrown
       case Printed(t, rest) => Printed("\n" + Indent(depth) + "{\n" + t + "\n" + Indent(depth) + "}", rest))
    case EArray(n) =>
      (match Enter(tail, depth + 1, n, true)
       case Thrown => Thrown
       case Printed(t, rest) => Printed("\n" + Indent(depth) + "[\n" + t + "\n" + Indent(depth) + "]", rest))
    case EInvalid => Thrown
    case ENoData => Thrown
    case _ => Printed(Scalar(es[0]), tail)
  }

  /** The loop, with `dataSize` entries still to print; it also stops where the list ends. */
  function Walk(es: seq<Entry>, depth: nat, dataSize: nat, inArray: bool): (r: Walked)
    ensures IsRest(r, es)
    decreases |es|, 1
  {
    if |es| == 0 || dataSize == 0 then Printed("", es)
    else
      match Cell(es, depth, IsValue(dataSize, inArray))
      case Thrown => Thrown
      case Printed(cell, rest) =>
        match Walk(rest, depth, dataSize - 1, inArray)
        case Thrown => Thrown
        case Printed(more, rest') =>
          Printed(Lead(depth, dataSize, inArray) + cell + Comma(dataSize, inArray) + more, rest')
  }

  function Lead(depth: nat, dataSize: nat, inArray: bool): string {
    if IsKey(dataSize, inArray) then Indent(depth) else ""
  }

  function Comma(dataSize: nat, inArray: bool): string
    requires dataSize > 0
  {
    if IsValue(dataSize, inArray) && dataSize - 1 != 0 then ",\n" else ""
  }

  // ---------------------------------------------------------------- trees

  /** A record; the children of a map alternate keys and values. */
  datatype Tree = Leaf(e: Entry) | Map(kids: Trees) | Arr(kids: Trees)

  datatype Trees = Nil | Cons(head: Tree, tail: Trees)

  function Count(ts: Trees): nat { match ts case Nil => 0 case Cons(_, tail) => 1 + Count(tail) }

  /** The preorder list of a record. */
  function Flatten(t: Tree): seq<Entry> {
    match t
    case Leaf(e) => [e]
    case Map(kids) => [EMap(Count(kids) / 2)] + FlattenAll(kids)
    case Arr(kids) => [EArray(Count(kids))] + FlattenAll(kids)
  }

  function FlattenAll(ts: Trees): seq<Entry> {
    match ts case Nil => [] case Cons(t, tail) => Flatten(t) + FlattenAll(tail)
  }

  predicate WellFormed(t: Tree) {
    match t
    case Leaf(e) => e.EString? || Printable(e)
    case Map(kids) => Count(kids) < 0x1_0000_0000 && Paired(kids)
    case Arr(kids) => AllWellFormed(kids)
  }

  predicate AllWellFormed(ts: Trees) {
    match ts case Nil => true case Cons(t, tail) => WellFormed(t) && AllWellFormed(tail)
  }

  /** Keys are strings, each followed by its value. */
  predicate Paired(ts: Trees) {
    match ts
    case Nil => true
    case Cons(k, Cons(v, tail)) => k.Leaf? && k.e.EString? && WellFormed(v) && Paired(tail)
    case Cons(_, Nil) => false
  }

  /** The reference printer, by recursion on the record. */
  function Show(t: Tree, d: nat): string
    requires WellFormed(t)
  {
    match t
    case Leaf(e) => if e.EString? then Quote(e.s) else Scalar(e)
    case Map(kids) => "\n" + Indent(d) + "{\n" + Members(kids, d + 1) + "\n" + Indent(d) + "}"
    case Arr(kids) => "\n" + Indent(d) + "[\n" + Items(kids, d + 1) + "\n" + Indent(d) + "]"
  }

  /** `"key" : value` lines, separated by commas. */
  function Members(ts: Trees, d: nat): string
    requires Paired(ts)
  {
    match ts
    case Nil => ""
    case Cons(k, Cons(v, tail)) =>
      Indent(d) + (Quote(k.e.s) + " : ") + Show(v, d) + if tail == Nil then "" else ",\n" + Members(tail, d)
  }

  function Items(ts: Trees, d: nat): string
    requires AllWellFormed(ts)
  {
    match ts
    case Nil => ""
    case Cons(t, tail) => Indent(d) + Show(t, d) + if tail == Nil then "" else ",\n" + Items(tail, d)
  }

  predicate IsText(t: Tree) { t.Leaf? && t.e.EString? }

  /** A value is printed as the reference says, and the walk stops right after it. */
  lemma {:induction false} CellPrints(t: Tree, d: nat, isValue: bool, rest: seq<Entry>)
    requires WellFormed(t) && (isValue || !IsText(t))
    ensures Cell(Flatten(t) + rest, d, isValue) == Printed(Show(t, d), rest)
    decreases t, 2
  {
    hide Enter;
    hide Members;
    hide Items;
    hide FlattenAll;
    hide Indent;
    hide Quote;
    var es := Flatten(t) + rest;
    match t
    case Leaf(e) =>
      assert es[1..] == rest;
      if e.EString? { assert Quote(e.s) + "" == Quote(e.s); }
    case Map(kids) =>
      assert es[0] == EMap(Count(kids) / 2) && es[1..] == FlattenAll(kids) + rest;
      EnterMembers(kids, d + 1, rest);
    case Arr(kids) =>
      assert es[0] == EArray(Count(kids)) && es[1..] == FlattenAll(kids) + rest;
      EnterItems(kids, d + 1, rest);
  }

  lemma {:induction false} EnterMembers(ts: Trees, d: nat, rest: seq<Entry>)
    requires Paired(ts) && Count(ts) < 0x1_0000_0000
    ensures Enter(FlattenAll(ts) + rest, d, Count(ts) / 2, false) == Printed(Members(ts, d), rest)
    decreases ts, 1
  {
    hide *;
    PairedIsEven(ts);
    NothingFlat(ts, rest);
    WalkMembers(ts, d, rest);
    if Count(ts) == 0 {
      WalkNone(rest, d, 0, false);
      EnterNone(rest, d, false);
    } else {
      EnterWalks(FlattenAll(ts) + rest, d, Count(ts) / 2, false);
    }
  }

  lemma {:induction false} EnterItems(ts: Trees, d: nat, rest: seq<Entry>)
    requires AllWellFormed(ts)
    ensures Enter(FlattenAll(ts) + rest, d, Count(ts), true) == Printed(Items(ts, d), rest)
    decreases ts, 1
  {
    hide *;
    NothingFlat(ts, rest);
    WalkItems(ts, d, rest);
    if Count(ts) == 0 {
      WalkNone(rest, d, 0, true);
      EnterNone(rest, d, true);
    } else {
      EnterWalks(FlattenAll(ts) + rest, d, Count(ts), true);
    }
  }

  lemma NothingFlat(ts: Trees, rest: seq<Entry>)
    ensures Count(ts) == 0 ==> FlattenAll(ts) + rest == rest
    ensures Count(ts) > 0 ==> |FlattenAll(ts) + rest| > 0
  {
    if ts == Nil { assert [] + rest == rest; }
    else { assert |Flatten(ts.head)| > 0; }
  }

  lemma {:induction false} PairedIsEven(ts: Trees)
    requires Paired(ts)
    ensures Count(ts) % 2 == 0
  {
    match ts
    case Nil =>
    case Cons(k, Cons(v, tail)) => PairedIsEven(tail);
  }

  lemma WalkNone(es: seq<Entry>, d: nat, n: nat, inArray: bool)
    requires |es| == 0 || n == 0
    ensures Walk(es, d, n, inArray) == Printed("", es)
  {}

  lemma {:induction false} WalkMembers(ts: Trees, d: nat, rest: seq<Entry>)
    requires Paired(ts)
    ensures Walk(FlattenAll(ts) + rest, d, Count(ts), false) == Printed(Members(ts, d), rest)
    decreases ts, 0
  {
    hide Cell;
    hide Walk;
    hide Show;
    hide Quote;
    hide Indent;
    match ts
    case Nil =>
      assert FlattenAll(ts) + rest == rest;
      WalkNone(rest, d, 0, false);
    case Cons(k, Cons(v, tail)) =>
      PairedIsEven(tail);
      FlatPair(ts, rest);
      var after := FlattenAll(tail) + rest;
      CellPrints(v, d, true, after);
      WalkMembers(tail, d, rest);
      PairPrints(k.e, Flatten(v), after, d, Count(tail), Show(v, d), Members(tail, d), rest);
      if tail == Nil { assert "" + "" == ""; }
  }

  lemma FlatPair(ts: Trees, rest: seq<Entry>)
    requires Paired(ts) && ts.Cons?
    ensures ts.tail.Cons? && Count(ts) == Count(ts.tail.tail) + 2 && |Flatten(ts.tail.head)| > 0
    ensures Count(ts.tail.tail) == 0 <==> ts.tail.tail == Nil
    ensures FlattenAll(ts) + rest == [ts.head.e] + (Flatten(ts.tail.head) + (FlattenAll(ts.tail.tail) + rest))
  {
    var k, v, tail := ts.head, ts.tail.head, ts.tail.tail;
    assert Flatten(k) == [k.e];
    assert FlattenAll(ts.tail) == Flatten(v) + FlattenAll(tail);
    assert FlattenAll(ts) == [k.e] + (Flatten(v) + FlattenAll(tail));
  }

  lemma WalkOne(es: seq<Entry>, d: nat, n: nat, inArray: bool, cell: string, after: seq<Entry>, more: string,
                rest: seq<Entry>)
    requires |es| > 0 && n > 0 && Cell(es, d, IsValue(n, inArray)) == Printed(cell, after)
    requires Walk(after, d, n - 1, inArray) == Printed(more, rest)
    ensures Walk(es, d, n, inArray) == Printed(Lead(d, n, inArray) + cell + Comma(n, inArray) + more, rest)
  {
    hide Cell;
  }

  /** One key, its value, and what follows. */
  lemma PairPrints(k: Entry, v: seq<Entry>, after: seq<Entry>, d: nat, n: nat, shown: string, more: string,
                   rest: seq<Entry>)
    requires k.EString? && |v| > 0 && n % 2 == 0
    requires Cell(v + after, d, true) == Printed(shown, after)
    requires Walk(after, d, n, false) == Printed(more, rest)
    ensures Walk([k] + (v + after), d, n + 2, false) ==
            Printed(Indent(d) + (Quote(k.s) + " : ") + shown + ((if n == 0 then "" else ",\n") + more), rest)
  {
    hide Cell;
    hide Walk;
    hide Quote;
    hide Indent;
    var es := [k] + (v + after);
    assert es[1..] == v + after;
    KeyCell(k, es, d);
    var comma := if n == 0 then "" else ",\n";
    WalkOne(v + after, d, n + 1, false, shown, after, more, rest);
    WalkOne(es, d, n + 2, false, Quote(k.s) + " : ", v + after, "" + shown + comma + more, rest);
    PairText(Indent(d) + (Quote(k.s) + " : "), shown, comma, more);
  }

  lemma KeyCell(k: Entry, es: seq<Entry>, d: nat)
    requires k.EString? && |es| > 0 && es[0] == k
    ensures Cell(es, d, false) == Printed(Quote(k.s) + " : ", es[1..])
  {}

  lemma PairText(key: string, shown: string, comma: string, more: string)
    ensures key + "" + ("" + shown + comma + more) == key + shown + (comma + more)
  {}

  lemma MembersText(a: string, b: string, c: string, t: string)
    ensures a + b + c + t == a + b + (c + t)
  {}

  lemma {:induction false} WalkItems(ts: Trees, d: nat, rest: seq<Entry>)
    requires AllWellFormed(ts)
    ensures Walk(FlattenAll(ts) + rest, d, Count(ts), true) == Printed(Items(ts, d), rest)
    decreases ts, 0
  {
    hide Cell;
    hide Walk;
    hide Show;
    hide Indent;
    match ts
    case Nil =>
      assert FlattenAll(ts) + rest == rest;
      WalkNone(rest, d, 0, true);
    case Cons(t, tail) =>
      FlatItem(ts, rest);
      CellPrints(t, d, true, FlattenAll(tail) + rest);
      WalkItems(tail, d, rest);
      WalkOne(FlattenAll(ts) + rest, d, Count(ts), true, Show(t, d), FlattenAll(tail) + rest, Items(tail, d), rest);
      MembersText(Indent(d), Show(t, d), Comma(Count(ts), true), Items(tail, d));
      if tail == Nil { assert "" + "" == ""; }
  }

  lemma FlatItem(ts: Trees, rest: seq<Entry>)
    requires ts.Cons?
    ensures Count(ts) == Count(ts.tail) + 1 && (Count(ts.tail) == 0 <==> ts.tail == Nil)
    ensures |FlattenAll(ts) + rest| > 0
    ensures FlattenAll(ts) + rest == Flatten(ts.head) + (FlattenAll(ts.tail) + rest)
  {
    hide Flatten;
    FlatSome(ts.head);
    assert FlattenAll(ts) == Flatten(ts.head) + FlattenAll(ts.tail);
  }

  lemma FlatSome(t: Tree)
    ensures |Flatten(t)| > 0
  {}

  /** What is printed for a whole record: a bare string is taken for a key. */
  function Root(t: Tree): string
    requires WellFormed(t)
  {
    if IsText(t) then Quote(t.e.s) + " : " else Show(t, 0)
  }

  lemma RootCell(t: Tree)
    requires WellFormed(t)
    ensures |Flatten(t)| > 0
    ensures Cell(Flatten(t), 0, false) == Printed(Root(t), [])
  {
    if !IsText(t) {
      CellPrints(t, 0, false, []);
      assert Flatten(t) + [] == Flatten(t);
    }
  }

  /** `to_json` starts the walk as a map of one pair: a record is printed in the place of a
      key, and the list ends where its value would be. */
  lemma RecordPrints(t: Tree)
    requires WellFormed(t)
    ensures Enter(Flatten(t), 0, 1, false) ==
            Printed(Root(t), [])
  {
    hide *;
    var text := Root(t);
    RootCell(t);
    WalkNone([], 0, 1, false);
    RootText(text);
    WalkOne(Flatten(t), 0, 2, false, text, [], "", []);
    EnterWalks(Flatten(t), 0, 1, false);
  }

  lemma RootText(cell: string)
    ensures !IsValue(2, false) && Lead(0, 2, false) + cell + Comma(2, false) + "" == cell
  {
    assert Indent(0) == "";
  }

  lemma EnterNone(es: seq<Entry>, d: nat, inArray: bool)
    ensures Enter(es, d, 0, inArray) == Printed("", es)
  {}

  lemma EnterWalks(es: seq<Entry>, d: nat, size: nat, inArray: bool)
    requires |es| > 0 && size > 0 && (inArray || size < 0x8000_0000)
    ensures Enter(es, d, size, inArray) == Walk(es, d, if inArray then size else size * 2, inArray)
  {
    hide Walk;
    hide IsRest;
  }

  // ---------------------------------------------------------------- what throws

  /** A tree with any entries at its leaves, and as many keys as values in its maps. */
  predicate Shaped(t: Tree) {
    match t
    case Leaf(e) => !e.EMap? && !e.EArray?
    case Map(kids) => Count(kids) < 0x1_0000_0000 && Count(kids) % 2 == 0 && AllShaped(kids)
    case Arr(kids) => AllShaped(kids)
  }

  predicate AllShaped(ts: Trees) {
    match ts case Nil => true case Cons(t, tail) => Shaped(t) && AllShaped(tail)
  }

  /** A leaf without data, or of a type that the switch refuses. */
  predicate Damaged(t: Tree) {
    match t
    case Leaf(e) => e == EInvalid || e == ENoData
    case Map(kids) => SomeDamaged(kids)
    case Arr(kids) => SomeDamaged(kids)
  }

  predicate SomeDamaged(ts: Trees) {
    match ts case Nil => false case Cons(t, tail) => Damaged(t) || SomeDamaged(tail)
  }

  /** The walk throws exactly if a leaf of the record is damaged; otherwise it stops right after the record. */
  lemma {:induction false} ThrowsIffDamaged(t: Tree, d: nat, isValue: bool, rest: seq<Entry>)
    requires Shaped(t)
    ensures var r := Cell(Flatten(t) + rest, d, isValue);
            (r == Thrown <==> Damaged(t)) && (r.Printed? ==> r.rest == rest)
    decreases t, 1
  {
    hide Enter;
    hide FlattenAll;
    hide SomeDamaged;
    hide AllShaped;
    hide Indent;
    hide Quote;
    hide Scalar;
    var es := Flatten(t) + rest;
    match t
    case Leaf(e) => assert es[1..] == rest;
    case Map(kids) =>
      assert es[1..] == FlattenAll(kids) + rest;
      EnterDamaged(kids, d + 1, Count(kids) / 2, false, rest);
    case Arr(kids) =>
      assert es[1..] == FlattenAll(kids) + rest;
      EnterDamaged(kids, d + 1, Count(kids), true, rest);
  }

  lemma {:induction false} EnterDamaged(ts: Trees, d: nat, size: nat, inArray: bool, rest: seq<Entry>)
    requires AllShaped(ts) && (inArray || size < 0x8000_0000) && Count(ts) == if inArray then size else size * 2
    ensures var r := Enter(FlattenAll(ts) + rest, d, size, inArray);
            (r == Thrown <==> SomeDamaged(ts)) && (r.Printed? ==> r.rest == rest)
    decreases ts, 2
  {
    hide *;
    NothingFlat(ts, rest);
    WalkDamaged(ts, d, inArray, rest);
    if Count(ts) == 0 {
      WalkNone(rest, d, 0, inArray);
      EnterNone(rest, d, inArray);
    } else {
      EnterWalks(FlattenAll(ts) + rest, d, size, inArray);
    }
  }

  lemma {:induction false} WalkDamaged(ts: Trees, d: nat, inArray: bool, rest: seq<Entry>)
    requires AllShaped(ts)
    ensures var r := Walk(FlattenAll(ts) + rest, d, Count(ts), inArray);
            (r == Thrown <==> SomeDamaged(ts)) && (r.Printed? ==> r.rest == rest)
    decreases ts, 0
  {
    hide Cell;
    hide Damaged;
    hide Shaped;
    hide Lead;
    hide Comma;
    match ts
    case Nil =>
      assert FlattenAll(ts) + rest == rest;
      WalkNone(rest, d, 0, inArray);
    case Cons(t, tail) =>
      FlatItem(ts, rest);
      ThrowsIffDamaged(t, d, IsValue(Count(ts), inArray), FlattenAll(tail) + rest);
      WalkDamaged(tail, d, inArray, rest);
      hide Flatten;
      hide FlattenAll;
  }

  /** A list that ends where entries are still to come throws at the start of a container and
      nowhere else: inside one the walk just stops. */
  lemma EndsEarly(d: nat, size: nat, inArray: bool)
    ensures Enter([], d, size, inArray) == Thrown <==> (if inArray then size else size * 2 % 0x1_0000_0000) > 0
    ensures Walk([], d, size, inArray) == Printed("", [])
  {}

  // ---------------------------------------------------------------- the nodes

  class Node {
    const entry: Entry
    var next: Node?

    constructor (entry: Entry)
      ensures this.entry == entry && next == null
    {
      this.entry := entry;
      next := null;
    }
  }

  ghost function At(list: seq<Node>, i: nat): Node? { if i < |list| then list[i] else null }

  ghost function Entries(list: seq<Node>): seq<Entry> { seq(|list|, i requires 0 <= i < |list| => list[i].entry) }

  /** `list` is what hangs from position `from` on, each node leading to the one after it. */
  ghost predicate Linked(list: seq<Node>, from: nat)
    reads list
  {
    forall i :: from <= i < |list| ==> list[i].next == At(list, i + 1)
  }

  ghost predicate Distinct(list: seq<Node>) { forall i, j :: 0 <= i < j < |list| ==> list[i] != list[j] }

  lemma SubList(list: seq<Node>, pos: nat)
    requires pos <= |list|
    ensures Entries(list[pos..]) == Entries(list)[pos..]
    ensures At(list[pos..], 0) == At(list, pos) && (pos < |list| ==> |list[pos..]| > 0 && list[pos..][0] == list[pos])
    ensures Linked(list, pos) <==> Linked(list[pos..], 0)
    ensures Distinct(list) ==> Distinct(list[pos..])
  {
    assert forall i :: 0 <= i < |list| - pos ==> list[pos..][i] == list[pos + i];
    if Linked(list[pos..], 0) {
      forall i | pos <= i < |list| ensures list[i].next == At(list, i + 1) {
        assert list[pos..][i - pos].next == At(list[pos..], i - pos + 1);
      }
    }
  }

  /** The nested call for a container: the pointer handed on is the node's own `next`. */
  method PrintInner(node: Node, depth: nat, n: nat, inArray: bool, ghost list: seq<Node>)
    returns (ok: bool, inner: string)
    requires |list| > 0 && list[0] == node && Linked(list, 0) && Distinct(list)
    modifies list
    ensures match Enter(Entries(list)[1..], depth, n, inArray)
            case Thrown => !ok
            case Printed(text, rest) =>
              ok && inner == text && node.next == At(list, |list| - |rest|) && Linked(list, |list| - |rest|)
    decreases |list|, 0
  {
    hide *;
    OnlyFirst(list);
    EnterRest(Entries(list)[1..], depth, n, inArray);
    ghost var w := Enter(Entries(list)[1..], depth, n, inArray);
    ok, inner := CreateJson(node, depth, n, inArray, list[1..]);
    if ok { AfterInner(list, w); }
  }

  /** The switch on the data type of one node. */
  method PrintCell(node: Node, depth: nat, isValue: bool, ghost list: seq<Node>) returns (ok: bool, cell: string)
    requires |list| > 0 && list[0] == node && Linked(list, 0) && Distinct(list)
    modifies list
    ensures match Cell(Entries(list), depth, isValue)
            case Thrown => !ok
            case Printed(text, rest) =>
              ok && cell == text && node.next == At(list, |list| - |rest|) && Linked(list, |list| - |rest|)
    decreases |list|, 1
  {
    hide Enter;
    hide Linked;
    hide At;
    FirstOf(list);
    ok, cell := true, "";
    match node.entry {
      case EString(s) =>
        cell := Quote(s) + if isValue then "" else " : ";
      case EMap(n) =>
        ok, cell := PrintInner(node, depth + 1, n, false, list);
        cell := "\n" + Indent(depth) + "{\n" + cell + "\n" + Indent(depth) + "}";
      case EArray(n) =>
        ok, cell := PrintInner(node, depth + 1, n, true, list);
        cell := "\n" + Indent(depth) + "[\n" + cell + "\n" + Indent(depth) + "]";
      case EInvalid => ok := false;
      case ENoData => ok := false;
      case _ => cell := Scalar(node.entry);
    }
  }

  /** What the nested call needs of the list after the container's own node. */
  lemma OnlyFirst(list: seq<Node>)
    requires |list| > 0 && Linked(list, 0) && Distinct(list)
    ensures |Entries(list)| == |list| && Entries(list[1..]) == Entries(list)[1..]
    ensures list[0].next == At(list[1..], 0) && Linked(list[1..], 0) && Distinct(list[1..]) && list[0] !in list[1..]
  {
    SubList(list, 1);
  }

  lemma EnterRest(es: seq<Entry>, depth: nat, n: nat, inArray: bool)
    ensures var w := Enter(es, depth, n, inArray); w.Printed? ==> |w.rest| <= |es|
  {}

  lemma FirstOf(list: seq<Node>)
    requires |list| > 0 && Linked(list, 0)
    ensures list[0].next == At(list, 1) && Linked(list, 1) && Entries(list)[0] == list[0].entry
    ensures |Entries(list)[1..]| == |list| - 1
  {}

  lemma AfterInner(list: seq<Node>, w: Walked)
    requires |list| > 0 && w.Printed? && |w.rest| <= |list| - 1
    requires Linked(list[1..], |list| - 1 - |w.rest|)
    ensures Linked(list, |list| - |w.rest|)
    ensures At(list[1..], |list| - 1 - |w.rest|) == At(list, |list| - |w.rest|)
  {
    forall i | |list| - |w.rest| <= i < |list| ensures list[i].next == At(list, i + 1) {
      assert list[1..][i - 1].next == At(list[1..], i);
    }
  }

  /** `create_json_from_entry`. The pointer passed by reference is the `next` field of
      `owner`: it moves along the list, and so do the `next` fields of the containers on the
      way. It ends at the first node after what was printed; later nodes are untouched. */
  method CreateJson(owner: Node, depth: nat, size: nat, inArray: bool, ghost list: seq<Node>)
    returns (ok: bool, ss: string)
    requires owner.next == At(list, 0) && Linked(list, 0) && Distinct(list) && owner !in list
    modifies owner, list
    ensures match Enter(Entries(list), depth, size, inArray)
            case Thrown => !ok
            case Printed(text, rest) =>
              ok && ss == text && owner.next == At(list, |list| - |rest|) && Linked(list, |list| - |rest|)
    decreases |list|, 2
  {
    hide *;
    ok, ss := true, "";
    var dataSize: nat := if inArray then size else size * 2 % 0x1_0000_0000;
    ghost var pos := 0;
    ghost var all := Entries(list);
    Reached(list, 0);
    EnterCases(all, depth, size, inArray);
    if dataSize == 0 { return; }
    if owner.next == null { return false, ""; }
    ghost var goal := Walk(all, depth, dataSize, inArray);
    NoPrefix(goal);
    while owner.next != null && dataSize != 0
      invariant 0 <= pos <= |list| && owner.next == At(list, pos) && Linked(list, pos)
      invariant goal == Prefixed(ss, Walk(all[pos..], depth, dataSize, inArray))
      decreases |list| - pos
    {
      var node := owner.next;
      Reached(list, pos);
      SubList(list, pos);
      var isValue := inArray || dataSize % 2 == 1;
      var isKey := inArray || !isValue;
      ghost var step := Cell(all[pos..], depth, isValue);
      WalkStep(ss, all[pos..], depth, dataSize, inArray);
      dataSize := dataSize - 1;
      if isKey { ss := ss + Indent(depth); } else { ss := ss + ""; }
      var cell;
      ok, cell := PrintCell(node, depth, isValue, list[pos..]);
      if !ok { return; }
      CellRest(all[pos..], depth, isValue);
      ss := ss + cell;
      if isValue && dataSize != 0 { ss := ss + ",\n"; } else { ss := ss + ""; }
      AfterCell(list, pos, step);
      pos := |list| - |step.rest|;
      owner.next := node.next;
    }
    Reached(list, pos);
    WalkEnds(ss, all[pos..], depth, dataSize, inArray);
  }

  lemma Reached(list: seq<Node>, pos: nat)
    requires pos <= |list|
    ensures |Entries(list)| == |list| && Entries(list)[0..] == Entries(list)
    ensures At(list, pos) == null <==> pos == |list|
    ensures pos < |list| ==> At(list, pos) == list[pos]
  {}

  lemma EnterCases(es: seq<Entry>, depth: nat, size: nat, inArray: bool)
    ensures var dataSize := if inArray then size else size * 2 % 0x1_0000_0000;
            Enter(es, depth, size, inArray) ==
              if dataSize == 0 then Printed("", es) else if |es| == 0 then Thrown
              else Walk(es, depth, dataSize, inArray)
  {
    hide Walk;
    hide IsRest;
  }

  lemma NoPrefix(w: Walked)
    ensures Prefixed("", w) == w
  {
    if w.Printed? { assert "" + w.text == w.text; }
  }

  lemma CellRest(es: seq<Entry>, depth: nat, isValue: bool)
    requires |es| > 0
    ensures var w := Cell(es, depth, isValue); w.Printed? ==> |w.rest| < |es| && w.rest == es[|es| - |w.rest|..]
  {}

  lemma AfterCell(list: seq<Node>, pos: nat, w: Walked)
    requires pos < |list| && w.Printed? && |w.rest| < |list| - pos
    requires Linked(list[pos..], |list| - pos - |w.rest|)
    ensures Linked(list, |list| - |w.rest|)
    ensures At(list[pos..], |list| - pos - |w.rest|) == At(list, |list| - |w.rest|)
  {
    forall i | |list| - |w.rest| <= i < |list| ensures list[i].next == At(list, i + 1) {
      assert list[pos..][i - pos].next == At(list[pos..], i - pos + 1);
    }
  }

  lemma WalkEnds(ss: string, es: seq<Entry>, depth: nat, dataSize: nat, inArray: bool)
    requires |es| == 0 || dataSize == 0
    ensures Prefixed(ss, Walk(es, depth, dataSize, inArray)) == Printed(ss, es)
  {
    assert ss + "" == ss;
  }

  /** Text already written, in front of what a walk prints. */
  ghost function Prefixed(ss: string, w: Walked): Walked {
    match w case Thrown => Thrown case Printed(t, rest) => Printed(ss + t, rest)
  }

  lemma WalkStep(ss: string, es: seq<Entry>, depth: nat, dataSize: nat, inArray: bool)
    requires |es| > 0 && dataSize > 0
    ensures Prefixed(ss, Walk(es, depth, dataSize, inArray)) ==
            var isValue := inArray || dataSize % 2 == 1;
            match Cell(es, depth, isValue)
            case Thrown => Thrown
            case Printed(cell, rest) =>
              Prefixed(ss + (if inArray || !isValue then Indent(depth) else "") + cell +
                       (if isValue && dataSize - 1 != 0 then ",\n" else ""),
                       Walk(rest, depth, dataSize - 1, inArray))
  {
    hide Cell;
    hide Indent;
    match Cell(es, depth, IsValue(dataSize, inArray))
    case Thrown =>
    case Printed(cell, rest) =>
      match Walk(rest, depth, dataSize - 1, inArray)
      case Thrown =>
      case Printed(more, rest') =>
        var lead, comma := Lead(depth, dataSize, inArray), Comma(dataSize, inArray);
        assert ss + (lead + cell + comma + more) == ss + lead + cell + comma + more;
  }

  /** `to_json` on the list of a record: the local pointer is the `next` of a cell of its own. */
  method ToJson(node: Node?, ghost list: seq<Node>, ghost t: Tree) returns (ok: bool, ss: string)
    requires node == At(list, 0) && Linked(list, 0) && Distinct(list)
    requires WellFormed(t) && Entries(list) == Flatten(t)
    modifies list
    ensures ok && ss == Root(t)
  {
    hide Enter;
    hide Show;
    hide Flatten;
    var cell := new Node(ENoData);
    cell.next := node;
    RecordPrints(t);
    ok, ss := CreateJson(cell, 0, 1, false, list);
  }
}
