/** The services database: every change is a row of the table LAST, and two servers bring
    each other up to date by exchanging `VERSION` and replaying the `DB` lines they lack. */
module ReplicatedLog {
  import opened Text

  // ---------------------------------------------------------------- the table

  datatype Row = Row(rowid: nat, id: string, text: string)

  /** `substr(3, 32)` of a line `DB <id> <sql>`. */
  function IdOf(text: string): string
    requires |text| >= 3
  {
    if |text| >= 35 then text[3..35] else text[3..]
  }

  predicate Known(rows: seq<Row>, id: string) { exists i :: 0 <= i < |rows| && rows[i].id == id }

  /** SELECT MAX(rowid): the table is held in rowid order; 0 when it is empty. */
  function MaxRowid(rows: seq<Row>): nat { if |rows| == 0 then 0 else rows[|rows| - 1].rowid }

  /** INSERT INTO LAST: the column ID is UNIQUE, so a second row with the same id is refused. */
  function Stored(rows: seq<Row>, text: string): seq<Row>
    requires |text| >= 3
  {
    if Known(rows, IdOf(text)) then rows else rows + [Row(MaxRowid(rows) + 1, IdOf(text), text)]
  }

  function LastId(rows: seq<Row>): string {
    if |rows| == 0 || rows[|rows| - 1].id == "" then "0" else rows[|rows| - 1].id
  }

  /** SELECT rowid ... WHERE ID = id LIMIT 1. */
  function FirstRowid(rows: seq<Row>, id: string): Option<nat> {
    if |rows| == 0 then None else if rows[0].id == id then Some(rows[0].rowid) else FirstRowid(rows[1..], id)
  }

  /** SELECT TEXTO ... WHERE rowid > r ORDER BY rowid. */
  function Since(rows: seq<Row>, r: nat): seq<string> {
    if |rows| == 0 then [] else (if rows[0].rowid > r then [rows[0].text] else []) + Since(rows[1..], r)
  }

  /** What `Sync` sends. For an id that is not there the second query is not even SQL, and
      nothing is sent. */
  function Missing(rows: seq<Row>, id: string): seq<string> {
    match if id == "0" then Some(0) else FirstRowid(rows, id)
    case None => []
    case Some(r) => Since(rows, r)
  }

  function Texts(rows: seq<Row>): (r: seq<string>)
    ensures |r| == |rows|
  {
    seq(|rows|, i requires 0 <= i < |rows| => rows[i].text)
  }

  // ---------------------------------------------------------------- one server

  /** LAST, and the rest of the database, changed by statements through some `exec`. */
  datatype Store<S> = Store(last: seq<Row>, state: S)

  datatype Handled<S> = Done(store: Store<S>, sent: seq<string>) | Crash | Outside

  /** The branches VERSION and DB of `Server::Parse`. */
  function Handle<S>(exec: (S, string) -> S, d: Store<S>, hub: bool, line: string): Handled<S> {
    var x := Tokens(line, " ");
    if line == "" then Done(d, [])
    else if |x| == 0 then Crash
    else if Upper(x[0]) == "VERSION" then
      Done(d, if |x| >= 2 && LastId(d.last) != x[1] && hub then Missing(d.last, x[1]) else [])
    else if Upper(x[0]) == "DB" then
      if |line| < 36 then Crash else Done(Store(Stored(d.last, line), exec(d.state, line[36..])), [])
    else Outside
  }

  class Database<S> {
    var last: seq<Row>
    var state: S
    const exec: (S, string) -> S

    constructor (exec: (S, string) -> S, initial: S)
      ensures this.exec == exec && last == [] && state == initial
    {
      this.exec := exec;
      last, state := [], initial;
    }

    ghost function View(): Store<S>
      reads this
    {
      Store(last, state)
    }

    /** `DB::AlmacenaDB`. */
    method AlmacenaDB(cadena: string)
      requires |cadena| >= 3
      modifies this`last
      ensures last == Stored(old(last), cadena)
    {
      var id := IdOf(cadena);
      var rowid := MaxRowid(last);
      if !Known(last, id) { last := last + [Row(rowid + 1, id, cadena)]; }
    }

    /** `DB::Sync`. */
    method Sync(id: string) returns (sent: seq<string>)
      ensures sent == Missing(last, id)
    {
      var rowid := FirstRowid(last, id);
      if id == "0" { rowid := Some(0); }
      var datos := if rowid.None? then [] else Since(last, rowid.value);
      sent := [];
      var i := 0;
      while i < |datos|
        invariant 0 <= i <= |datos| && sent == datos[..i]
      {
        sent := sent + [datos[i]];
        i := i + 1;
      }
    }

    /** `DB::GetLastRecord`. */
    method GetLastRecord() returns (version: string)
      ensures version == LastId(last)
    {
      version := if |last| == 0 then "" else last[|last| - 1].id;
      if version == "" { version := "0"; }
    }

    method Parse(message: string, hub: bool) returns (ghost outcome: Handled<S>, sent: seq<string>)
      modifies this
      ensures outcome == Handle(exec, old(View()), hub, message)
      ensures outcome == if outcome.Done? then Done(View(), sent) else outcome
      ensures !outcome.Done? ==> View() == old(View())
    {
      outcome, sent := Handle(exec, View(), hub, message), [];
      if |message| == 0 { return; }
      var x := Split(message, " ");
      if |x| == 0 { return; }
      var cmd := Upper(x[0]);
      if cmd == "VERSION" {
        if |x| < 2 { return; }
        var version := GetLastRecord();
        if version != x[1] && hub { sent := Sync(x[1]); }
      } else if cmd == "DB" {
        if |message| < 36 { return; }
        state := exec(state, message[36..]);
        AlmacenaDB(message);
      }
    }
  }

  // ---------------------------------------------------------------- what a sound log is

  /** `DB `, a 32-character id, a space and the statement. */
  predicate Framed(line: string) {
    |line| >= 36 && line[..3] == "DB " && IsToken(line[3..35], " ")
  }

  /** Rows numbered from 1, each under the id of its text, no id twice. */
  ghost predicate Numbered(rows: seq<Row>) {
    (forall i :: 0 <= i < |rows| ==>
      rows[i].rowid == i + 1 && Framed(rows[i].text) && rows[i].id == IdOf(rows[i].text)) &&
    (forall i, j :: 0 <= i < j < |rows| ==> rows[i].id != rows[j].id)
  }

  /** The state a log leads to. */
  function Fold<S>(exec: (S, string) -> S, s: S, lines: seq<string>): S
    requires forall line :: line in lines ==> |line| >= 36
  {
    if |lines| == 0 then s else exec(Fold(exec, s, lines[..|lines| - 1]), lines[|lines| - 1][36..])
  }

  ghost predicate Sound<S>(exec: (S, string) -> S, s: S, d: Store<S>) {
    Numbered(d.last) && d.state == Fold(exec, s, Texts(d.last))
  }

  /** An id is 32 characters long, so it is never the "0" of the empty log. */
  lemma IdIsAToken(rows: seq<Row>, i: nat)
    requires Numbered(rows) && i < |rows|
    ensures |rows[i].id| == 32 && IsToken(rows[i].id, " ") && rows[i].id != "0"
  {}

  lemma NewRowNumbered(rows: seq<Row>, line: string)
    requires Numbered(rows) && Framed(line)
    ensures Numbered(Stored(rows, line))
    ensures Texts(Stored(rows, line)) == if Known(rows, IdOf(line)) then Texts(rows) else Texts(rows) + [line]
  {
    hide Framed;
  }

  /** A `DB` line: a new one is executed and logged; one already logged is executed again,
      and the log stays the history of the state exactly when that changes nothing. */
  lemma DbLine<S>(exec: (S, string) -> S, s: S, d: Store<S>, hub: bool, line: string)
    requires Sound(exec, s, d) && Framed(line)
    ensures var h := Handle(exec, d, hub, line);
            h.Done? && h.sent == [] && h.store.state == exec(d.state, line[36..]) &&
            h.store.last == Stored(d.last, line) &&
            (Sound(exec, s, h.store) <==> Known(d.last, IdOf(line)) ==> exec(d.state, line[36..]) == d.state)
  {
    hide Stored;
    hide Tokens;
    hide Numbered;
    NewRowNumbered(d.last, line);
    TokenThenRest("DB", line[2..], " ");
    assert line[..3][..2] == "DB" && line[..3][2] == ' ';
    assert line == "DB" + line[2..];
    assert Upper("DB") == "DB";
    var before := Texts(d.last);
    if !Known(d.last, IdOf(line)) {
      assert (before + [line])[..|before|] == before;
    }
  }

  // ---------------------------------------------------------------- the queries

  lemma {:induction false} SinceNumbered(rows: seq<Row>, k: nat, from: nat)
    requires k <= |rows| && from <= |rows|
    requires forall i :: 0 <= i < |rows| ==> rows[i].rowid == i + 1
    ensures Since(rows[from..], k) == Texts(rows)[if from < k then k else from..]
    decreases |rows| - from
  {
    hide Since;
    if from < |rows| {
      SinceNumbered(rows, k, from + 1);
      assert rows[from..] == [rows[from]] + rows[from + 1..];
      SinceCons(rows[from], rows[from + 1..], k);
      assert Texts(rows)[from..] == [rows[from].text] + Texts(rows)[from + 1..];
      assert [] + Since(rows[from + 1..], k) == Since(rows[from + 1..], k);
    } else {
      assert rows[from..] == [];
      SinceCons(Row(0, "", ""), [], k);
    }
  }

  lemma SinceCons(row: Row, rows: seq<Row>, k: nat)
    ensures Since([row] + rows, k) == (if row.rowid > k then [row.text] else []) + Since(rows, k)
    ensures Since([], k) == []
  {
    assert ([row] + rows)[1..] == rows;
  }

  lemma {:induction false} FirstRowidExact(rows: seq<Row>, id: string)
    ensures FirstRowid(rows, id) == None <==> !Known(rows, id)
    ensures forall i :: 0 <= i < |rows| && rows[i].id == id && (forall j :: 0 <= j < i ==> rows[j].id != id) ==>
              FirstRowid(rows, id) == Some(rows[i].rowid)
  {
    if |rows| > 0 {
      FirstRowidExact(rows[1..], id);
      if rows[0].id != id {
        assert forall i :: 1 <= i < |rows| ==> rows[i] == rows[1..][i - 1];
        if Known(rows[1..], id) {
          var i :| 0 <= i < |rows[1..]| && rows[1..][i].id == id;
          assert rows[i + 1].id == id;
        }
      }
    }
  }

  /** The id a server gives for its first `k` rows is answered with exactly the later ones. */
  lemma MissingAfter(rows: seq<Row>, k: nat)
    requires Numbered(rows) && k <= |rows|
    ensures Missing(rows, LastId(rows[..k])) == Texts(rows)[k..]
    ensures LastId(rows) == LastId(rows[..k]) <==> k == |rows|
  {
    hide Framed;
    assert rows[0..] == rows && rows[..|rows|] == rows;
    SinceNumbered(rows, k, 0);
    if |rows| > 0 { IdIsAToken(rows, |rows| - 1); }
    if k > 0 {
      IdIsAToken(rows, k - 1);
      FirstRowidExact(rows, rows[k - 1].id);
    }
  }

  /** An id this server does not have yet is answered with nothing. */
  lemma MissingUnknown(rows: seq<Row>, k: nat)
    requires Numbered(rows) && k < |rows|
    ensures Missing(rows[..k], LastId(rows)) == []
  {
    hide Framed;
    IdIsAToken(rows, |rows| - 1);
    FirstRowidExact(rows[..k], LastId(rows));
  }

  // ---------------------------------------------------------------- the exchange

  /** Two servers and the lines on their way, in order, each way. */
  datatype Session<S> = Session(a: Store<S>, b: Store<S>, aSaid: bool, bSaid: bool, ab: seq<string>, ba: seq<string>)

  /** A server announces its version once; a server handles the oldest line it was sent. */
  datatype Move = ASays | AHears | BSays | BHears

  function Version(rows: seq<Row>): string { "VERSION " + LastId(rows) }

  function Start<S>(a: Store<S>, b: Store<S>): Session<S> { Session(a, b, false, false, [], []) }

  function Says<S>(s: Session<S>): Session<S> {
    if s.aSaid then s else s.(aSaid := true, ab := s.ab + [Version(s.a.last)])
  }

  function Hears<S>(exec: (S, string) -> S, hub: bool, s: Session<S>): Session<S> {
    if |s.ba| == 0 then s
    else
      match Handle(exec, s.a, hub, s.ba[0])
      case Done(a, sent) => s.(a := a, ba := s.ba[1..], ab := s.ab + sent)
      case _ => s.(ba := s.ba[1..])
  }

  function Swap<S>(s: Session<S>): Session<S> { Session(s.b, s.a, s.bSaid, s.aSaid, s.ba, s.ab) }

  function Next<S>(exec: (S, string) -> S, hubA: bool, hubB: bool, s: Session<S>, m: Move): Session<S> {
    match m
    case ASays => Says(s)
    case AHears => Hears(exec, hubA, s)
    case BSays => Swap(Says(Swap(s)))
    case BHears => Swap(Hears(exec, hubB, Swap(s)))
  }

  function Run<S>(exec: (S, string) -> S, hubA: bool, hubB: bool, s: Session<S>, ms: seq<Move>): Session<S> {
    if |ms| == 0 then s else Next(exec, hubA, hubB, Run(exec, hubA, hubB, s, ms[..|ms| - 1]), ms[|ms| - 1])
  }

  predicate Finished<S>(s: Session<S>) { s.aSaid && s.bSaid && s.ab == [] && s.ba == [] }

  predicate IsDb(line: string) { |line| >= 3 && line[..3] == "DB " }

  function DbLines(lines: seq<string>): seq<string> {
    if |lines| == 0 then [] else (if IsDb(lines[0]) then [lines[0]] else []) + DbLines(lines[1..])
  }

  lemma {:induction false} DbLinesAdd(xs: seq<string>, ys: seq<string>)
    ensures DbLines(xs + ys) == DbLines(xs) + DbLines(ys)
  {
    hide DbLines;
    hide IsDb;
    if |xs| == 0 {
      assert xs + ys == ys;
      Popped("", []);
      assert [] + DbLines(ys) == DbLines(ys);
    } else {
      DbLinesAdd(xs[1..], ys);
      assert xs == [xs[0]] + xs[1..] && xs + ys == [xs[0]] + (xs[1..] + ys);
      Popped(xs[0], xs[1..]);
      Popped(xs[0], xs[1..] + ys);
    }
  }

  lemma {:induction false} AllDbLines(xs: seq<string>)
    requires forall x :: x in xs ==> IsDb(x)
    ensures DbLines(xs) == xs
  {
    if |xs| > 0 { AllDbLines(xs[1..]); }
  }

  /** What holds while A, whose log is the first `k` rows of B's, catches up. */
  ghost predicate CatchingUp<S>(exec: (S, string) -> S, s0: S, hubB: bool, b: Store<S>, k: nat, s: Session<S>)
    requires k <= |b.last| && Sound(exec, s0, b)
  {
    var n := |s.a.last|;
    var answered := hubB && s.aSaid && s.ab == [];
    s.b == b && k <= n <= |b.last| && s.a.last == b.last[..n] && Sound(exec, s0, s.a) &&
    (s.ab == [] || (s.aSaid && s.ab == [Version(b.last[..k])])) &&
    (forall m :: m in s.ba ==> m == Version(b.last) || m in Texts(b.last)) &&
    (if answered then DbLines(s.ba) == Texts(b.last)[n..] else n == k && DbLines(s.ba) == [])
  }

  lemma VersionLine<S>(exec: (S, string) -> S, d: Store<S>, hub: bool, rows: seq<Row>)
    requires Numbered(rows)
    ensures Handle(exec, d, hub, Version(rows)) ==
            Done(d, if LastId(d.last) != LastId(rows) && hub then Missing(d.last, LastId(rows)) else [])
    ensures !IsDb(Version(rows))
  {
    hide Tokens;
    hide Missing;
    hide Numbered;
    if |rows| > 0 { IdIsAToken(rows, |rows| - 1); }
    var x := ["VERSION", LastId(rows)];
    TokensOfJoin(x);
    assert Join(x) == Version(rows);
    assert Upper("VERSION") == "VERSION";
    assert Version(rows)[0] == 'V';
  }

  /** The other lines of these branches: VERSION without an id is not answered, a DB line of less
      than 36 characters throws, and any other word is no matter of the log. */
  lemma OtherLines<S>(exec: (S, string) -> S, d: Store<S>, hub: bool, ts: seq<string>)
    requires |ts| > 0 && AreTokens(ts, " ")
    ensures var h := Handle(exec, d, hub, Join(ts));
            (Upper(ts[0]) == "VERSION" && |ts| == 1 ==> h == Done(d, [])) &&
            (Upper(ts[0]) == "DB" && |Join(ts)| < 36 ==> h == Crash) &&
            (Upper(ts[0]) != "VERSION" && Upper(ts[0]) != "DB" ==> h == Outside)
  {
    TokensOfJoin(ts);
    JoinIsSingleSpaced(ts);
    assert "VERSION"[0] == 'V' && "DB"[0] == 'D';
    hide Tokens;
    hide Join;
    hide Upper;
    hide Missing;
    hide Stored;
  }

  lemma SaysKeeps<S>(exec: (S, string) -> S, s0: S, hubB: bool, b: Store<S>, k: nat, s: Session<S>)
    requires k <= |b.last| && Sound(exec, s0, b) && CatchingUp(exec, s0, hubB, b, k, s)
    ensures CatchingUp(exec, s0, hubB, b, k, Says(s))
    ensures CatchingUp(exec, s0, hubB, b, k, Swap(Says(Swap(s))))
  {
    hide Sound;
    hide Version;
    hide DbLines;
    hide Texts;
    hide IsDb;
    NotDb(exec, s0, b);
    DbLinesAdd(s.ba, [Version(b.last)]);
    Popped(Version(b.last), []);
    assert DbLines(s.ba) + [] == DbLines(s.ba);
  }

  lemma NotDb<S>(exec: (S, string) -> S, s0: S, b: Store<S>)
    requires Sound(exec, s0, b)
    ensures !IsDb(Version(b.last))
    ensures forall m :: m in Texts(b.last) ==> IsDb(m)
  {
    hide Version;
    VersionLine(exec, b, true, b.last);
  }

  lemma Popped(m: string, rest: seq<string>)
    ensures DbLines([m] + rest) == (if IsDb(m) then [m] else []) + DbLines(rest)
    ensures DbLines([]) == []
    ensures DbLines([m]) == if IsDb(m) then [m] else []
  {
    hide IsDb;
    assert ([m] + rest)[1..] == rest;
  }

  /** B is asked by a server that has its first `k` rows. */
  lemma AskedKeeps<S>(exec: (S, string) -> S, s0: S, hubB: bool, b: Store<S>, k: nat, s: Session<S>)
    requires k <= |b.last| && Sound(exec, s0, b) && CatchingUp(exec, s0, hubB, b, k, s)
    ensures CatchingUp(exec, s0, hubB, b, k, Swap(Hears(exec, hubB, Swap(s))))
  {
    hide Sound;
    hide Version;
    hide DbLines;
    hide Texts;
    hide IsDb;
    hide Handle;
    if |s.ab| > 0 {
      var later := Texts(b.last)[k..];
      var sent := if hubB then later else [];
      Answer(exec, s0, hubB, b, k);
      NotDb(exec, s0, b);
      AllDbLines(sent);
      DbLinesAdd(s.ba, sent);
      assert s.ab[1..] == [];
      assert DbLines(s.ba) + sent == sent;
    }
  }

  lemma Answer<S>(exec: (S, string) -> S, s0: S, hub: bool, b: Store<S>, k: nat)
    requires k <= |b.last| && Sound(exec, s0, b)
    ensures Handle(exec, b, hub, Version(b.last[..k])) == Done(b, if hub then Texts(b.last)[k..] else [])
  {
    hide Handle;
    hide Missing;
    hide LastId;
    hide Framed;
    VersionLine(exec, b, hub, b.last[..k]);
    MissingAfter(b.last, k);
  }

  /** A hears one of the rows it lacks: it is the next one. */
  lemma HearsRow<S>(exec: (S, string) -> S, s0: S, hubA: bool, hubB: bool, b: Store<S>, k: nat, s: Session<S>)
    requires k <= |b.last| && Sound(exec, s0, b) && CatchingUp(exec, s0, hubB, b, k, s)
    requires |s.ba| > 0 && IsDb(s.ba[0])
    ensures CatchingUp(exec, s0, hubB, b, k, Hears(exec, hubA, s))
  {
    hide Sound;
    hide Version;
    hide DbLines;
    hide IsDb;
    hide Handle;
    var m, rest := s.ba[0], s.ba[1..];
    var n := |s.a.last|;
    assert s.ba == [m] + rest;
    Popped(m, rest);
    FirstDbLine(Texts(b.last), n, m, rest);
    RowArrives(exec, s0, hubA, b, n, s.a, m);
    hide Texts;
    assert s.ab + [] == s.ab;
  }

  lemma HearsVersion<S>(exec: (S, string) -> S, s0: S, hubA: bool, hubB: bool, b: Store<S>, k: nat, s: Session<S>)
    requires k <= |b.last| && Sound(exec, s0, b) && CatchingUp(exec, s0, hubB, b, k, s)
    requires |s.ba| > 0 && !IsDb(s.ba[0])
    ensures CatchingUp(exec, s0, hubB, b, k, Hears(exec, hubA, s))
  {
    hide Sound;
    hide Version;
    hide DbLines;
    hide IsDb;
    hide Handle;
    hide Texts;
    var m, rest := s.ba[0], s.ba[1..];
    assert s.ba == [m] + rest;
    NotDb(exec, s0, b);
    Popped(m, rest);
    assert [] + DbLines(rest) == DbLines(rest);
    VersionHeard(exec, s0, hubA, b, |s.a.last|, s.a);
    assert s.ab + [] == s.ab;
  }

  lemma HearsKeeps<S>(exec: (S, string) -> S, s0: S, hubA: bool, hubB: bool, b: Store<S>, k: nat, s: Session<S>)
    requires k <= |b.last| && Sound(exec, s0, b) && CatchingUp(exec, s0, hubB, b, k, s)
    ensures CatchingUp(exec, s0, hubB, b, k, Hears(exec, hubA, s))
  {
    hide Sound;
    hide CatchingUp;
    hide IsDb;
    if |s.ba| > 0 {
      if IsDb(s.ba[0]) { HearsRow(exec, s0, hubA, hubB, b, k, s); }
      else { HearsVersion(exec, s0, hubA, hubB, b, k, s); }
    }
  }

  lemma FirstDbLine(rows: seq<string>, n: nat, m: string, rest: seq<string>)
    requires n <= |rows| && IsDb(m) && [m] + DbLines(rest) == rows[n..]
    ensures n < |rows| && rows[n] == m && DbLines(rest) == rows[n + 1..]
  {
    hide *;
    assert rows[n..][0] == m;
    assert rows[n..][1..] == ([m] + DbLines(rest))[1..] == DbLines(rest);
  }

  lemma VersionHeard<S>(exec: (S, string) -> S, s0: S, hub: bool, b: Store<S>, n: nat, a: Store<S>)
    requires Sound(exec, s0, b) && n <= |b.last| && a.last == b.last[..n]
    ensures Handle(exec, a, hub, Version(b.last)) == Done(a, [])
  {
    hide Handle;
    hide Missing;
    VersionLine(exec, a, hub, b.last);
    if n < |b.last| { MissingUnknown(b.last, n); }
    else { assert b.last[..n] == b.last; }
  }

  lemma RowArrives<S>(exec: (S, string) -> S, s0: S, hub: bool, b: Store<S>, n: nat, a: Store<S>, line: string)
    requires Sound(exec, s0, b) && n < |b.last| && a.last == b.last[..n] && Sound(exec, s0, a)
    requires line == b.last[n].text
    ensures var h := Handle(exec, a, hub, line);
            h.Done? && h.sent == [] && h.store.last == b.last[..n + 1] && Sound(exec, s0, h.store)
  {
    hide Handle;
    DbLine(exec, s0, a, hub, line);
    assert b.last[n].id == IdOf(line);
    assert !Known(a.last, IdOf(line));
    assert b.last[..n + 1] == b.last[..n] + [b.last[n]];
  }

  lemma {:induction false} RunCatchesUp<S>(exec: (S, string) -> S, s0: S, hubA: bool, hubB: bool, a: Store<S>,
                                           b: Store<S>, ms: seq<Move>)
    requires Sound(exec, s0, a) && Sound(exec, s0, b) && a.last <= b.last
    ensures CatchingUp(exec, s0, hubB, b, |a.last|, Run(exec, hubA, hubB, Start(a, b), ms))
  {
    hide CatchingUp;
    hide Sound;
    hide Hears;
    hide Says;
    if |ms| == 0 {
      assert a.last == b.last[..|a.last|];
      NothingSaid(exec, s0, hubB, a, b);
    } else {
      RunCatchesUp(exec, s0, hubA, hubB, a, b, ms[..|ms| - 1]);
      var s := Run(exec, hubA, hubB, Start(a, b), ms[..|ms| - 1]);
      SaysKeeps(exec, s0, hubB, b, |a.last|, s);
      AskedKeeps(exec, s0, hubB, b, |a.last|, s);
      HearsKeeps(exec, s0, hubA, hubB, b, |a.last|, s);
    }
  }

  lemma NothingSaid<S>(exec: (S, string) -> S, s0: S, hubB: bool, a: Store<S>, b: Store<S>)
    requires Sound(exec, s0, a) && Sound(exec, s0, b) && |a.last| <= |b.last| && a.last == b.last[..|a.last|]
    ensures CatchingUp(exec, s0, hubB, b, |a.last|, Start(a, b))
  {
    hide Sound;
  }

  function SwapMove(m: Move): Move {
    match m case ASays => BSays case AHears => BHears case BSays => ASays case BHears => AHears
  }

  function SwapMoves(ms: seq<Move>): seq<Move> { seq(|ms|, i requires 0 <= i < |ms| => SwapMove(ms[i])) }

  /** The session is the same seen from the other end. */
  lemma {:induction false} RunSwapped<S>(exec: (S, string) -> S, hubA: bool, hubB: bool, s: Session<S>, ms: seq<Move>)
    ensures Run(exec, hubB, hubA, Swap(s), SwapMoves(ms)) == Swap(Run(exec, hubA, hubB, s, ms))
  {
    hide Hears;
    hide Says;
    if |ms| > 0 {
      RunSwapped(exec, hubA, hubB, s, ms[..|ms| - 1]);
      assert SwapMoves(ms)[..|ms| - 1] == SwapMoves(ms[..|ms| - 1]);
    }
  }

  /** Rows are only ever added, at the end. */
  lemma {:induction false} RunAppends<S>(exec: (S, string) -> S, hubA: bool, hubB: bool, s: Session<S>, ms: seq<Move>)
    ensures var e := Run(exec, hubA, hubB, s, ms); s.a.last <= e.a.last && s.b.last <= e.b.last
  {
    hide Hears;
    hide Says;
    hide Next;
    if |ms| > 0 {
      var e := Run(exec, hubA, hubB, s, ms[..|ms| - 1]);
      RunAppends(exec, hubA, hubB, s, ms[..|ms| - 1]);
      NextAppends(exec, hubA, hubB, e, ms[|ms| - 1]);
    }
  }

  lemma NextAppends<S>(exec: (S, string) -> S, hubA: bool, hubB: bool, s: Session<S>, m: Move)
    ensures var e := Next(exec, hubA, hubB, s, m); s.a.last <= e.a.last && s.b.last <= e.b.last
  {
    hide Hears;
    HearsAppends(exec, hubA, s);
    HearsAppends(exec, hubB, Swap(s));
  }

  lemma HearsAppends<S>(exec: (S, string) -> S, hub: bool, s: Session<S>)
    ensures var e := Hears(exec, hub, s); s.a.last <= e.a.last && e.b == s.b
  {
    hide Tokens;
    hide Missing;
  }

  /** A finished session in which A was not ahead. */
  lemma FollowerEnds<S>(exec: (S, string) -> S, s0: S, hubA: bool, hubB: bool, a: Store<S>, b: Store<S>, ms: seq<Move>)
    requires Sound(exec, s0, a) && Sound(exec, s0, b) && a.last <= b.last
    requires Finished(Run(exec, hubA, hubB, Start(a, b), ms))
    ensures var e := Run(exec, hubA, hubB, Start(a, b), ms);
            e.b == b && Sound(exec, s0, e.a) && e.a.last == if hubB then b.last else a.last
  {
    hide Sound;
    hide Run;
    hide Texts;
    RunCatchesUp(exec, s0, hubA, hubB, a, b, ms);
    var e := Run(exec, hubA, hubB, Start(a, b), ms);
    assert |Texts(b.last)[|e.a.last|..]| == |b.last| - |e.a.last|;
    assert b.last[..|b.last|] == b.last;
  }

  /** However the announcements and the lines interleave, a session ends with equal logs
      exactly when one log was a prefix of the other and the longer side would answer. Both
      logs are then the longer one, and the two databases are in the same state. */
  lemma SessionConverges<S>(exec: (S, string) -> S, s0: S, hubA: bool, hubB: bool, a: Store<S>, b: Store<S>,
                            ms: seq<Move>)
    requires Sound(exec, s0, a) && Sound(exec, s0, b)
    requires Finished(Run(exec, hubA, hubB, Start(a, b), ms))
    ensures var e := Run(exec, hubA, hubB, Start(a, b), ms);
            (e.a.last == e.b.last <==> a.last == b.last || (a.last < b.last && hubB) || (b.last < a.last && hubA)) &&
            (e.a.last == e.b.last ==>
              e.a == e.b && Sound(exec, s0, e.a) && e.a.last == if a.last <= b.last then b.last else a.last)
  {
    hide Sound;
    hide Run;
    RunAppends(exec, hubA, hubB, Start(a, b), ms);
    if a.last <= b.last {
      FollowerEnds(exec, s0, hubA, hubB, a, b, ms);
      SameLogSameState(exec, s0, Run(exec, hubA, hubB, Start(a, b), ms));
    } else if b.last <= a.last {
      RunSwapped(exec, hubA, hubB, Start(a, b), ms);
      FollowerEnds(exec, s0, hubB, hubA, b, a, SwapMoves(ms));
      SameLogSameState(exec, s0, Run(exec, hubA, hubB, Start(a, b), ms));
    }
  }

  lemma RunOneMore<S>(exec: (S, string) -> S, hubA: bool, hubB: bool, s: Session<S>, ms: seq<Move>, m: Move)
    ensures Run(exec, hubA, hubB, s, ms + [m]) == Next(exec, hubA, hubB, Run(exec, hubA, hubB, s, ms), m)
  {
    hide Next;
    assert (ms + [m])[..|ms|] == ms;
  }

  /** A line that is answered with nothing. */
  predicate IsQuiet(line: string) {
    var x := Tokens(line, " ");
    x == [] || Upper(x[0]) != "VERSION"
  }

  ghost predicate QuietRows(rows: seq<Row>) { forall i :: 0 <= i < |rows| ==> IsQuiet(rows[i].text) }

  lemma NumberedIsQuiet(rows: seq<Row>)
    requires Numbered(rows)
    ensures QuietRows(rows)
  {
    forall i | 0 <= i < |rows| ensures IsQuiet(rows[i].text) {
      var line := rows[i].text;
      TokenThenRest("DB", line[2..], " ");
      assert line[..3][..2] == "DB" && line[..3][2] == ' ' && line == "DB" + line[2..];
      assert Upper("DB") == "DB";
    }
  }

  lemma {:induction false} SinceIsQuiet(rows: seq<Row>, r: nat)
    requires QuietRows(rows)
    ensures forall m :: m in Since(rows, r) ==> IsQuiet(m)
  {
    hide IsQuiet;
    if |rows| > 0 { SinceIsQuiet(rows[1..], r); }
  }

  /** Handling a line: a quiet one sends nothing, any other only rows; and rows stay quiet. */
  lemma HandledQuietly<S>(exec: (S, string) -> S, d: Store<S>, hub: bool, line: string)
    requires QuietRows(d.last)
    ensures var h := Handle(exec, d, hub, line);
            h.Done? ==>
              QuietRows(h.store.last) && (forall m :: m in h.sent ==> IsQuiet(m)) && (IsQuiet(line) ==> h.sent == [])
  {
    hide Tokens;
    forall r: nat ensures forall m :: m in Since(d.last, r) ==> IsQuiet(m) { SinceIsQuiet(d.last, r); }
    hide Since;
    hide Known;
  }

  function Loud(lines: seq<string>): nat {
    if |lines| == 0 then 0 else (if IsQuiet(lines[0]) then 0 else 1) + Loud(lines[1..])
  }

  lemma {:induction false} LoudAdd(xs: seq<string>, ys: seq<string>)
    requires forall y :: y in ys ==> IsQuiet(y)
    ensures Loud(xs + ys) == Loud(xs)
  {
    hide IsQuiet;
    if |xs| == 0 {
      assert xs + ys == ys;
      if |ys| > 0 { LoudAdd([], ys[1..]); assert [] + ys[1..] == ys[1..]; }
    } else {
      LoudAdd(xs[1..], ys);
      assert (xs + ys)[1..] == xs[1..] + ys;
    }
  }

  /** Hearing a line leaves fewer announcements on the way, or as many and fewer lines. */
  lemma HearsLess<S>(exec: (S, string) -> S, hub: bool, s: Session<S>)
    requires |s.ba| > 0 && QuietRows(s.a.last)
    ensures var e := Hears(exec, hub, s);
            e.b == s.b && e.aSaid == s.aSaid && e.bSaid == s.bSaid && QuietRows(e.a.last) &&
            (Loud(e.ab) + Loud(e.ba) < Loud(s.ab) + Loud(s.ba) ||
             (Loud(e.ab) + Loud(e.ba) == Loud(s.ab) + Loud(s.ba) && |e.ab| + |e.ba| < |s.ab| + |s.ba|))
  {
    HandledQuietly(exec, s.a, hub, s.ba[0]);
    hide Handle;
    hide IsQuiet;
    hide QuietRows;
    var h := Handle(exec, s.a, hub, s.ba[0]);
    if h.Done? { LoudAdd(s.ab, h.sent); }
  }

  lemma {:induction false} HearsOut<S>(exec: (S, string) -> S, hubA: bool, hubB: bool, s0: Session<S>, ms: seq<Move>)
    returns (more: seq<Move>)
    requires var s := Run(exec, hubA, hubB, s0, ms); s.aSaid && s.bSaid && QuietRows(s.a.last) && QuietRows(s.b.last)
    ensures ms <= more && Finished(Run(exec, hubA, hubB, s0, more))
    decreases var s := Run(exec, hubA, hubB, s0, ms); Loud(s.ab) + Loud(s.ba),
              var s := Run(exec, hubA, hubB, s0, ms); |s.ab| + |s.ba|
  {
    hide Run;
    hide Hears;
    hide QuietRows;
    hide Loud;
    more := ms;
    var s := Run(exec, hubA, hubB, s0, ms);
    if |s.ba| > 0 {
      HearsLess(exec, hubA, s);
      RunOneMore(exec, hubA, hubB, s0, ms, AHears);
      more := HearsOut(exec, hubA, hubB, s0, ms + [AHears]);
    } else if |s.ab| > 0 {
      HearsLess(exec, hubB, Swap(s));
      RunOneMore(exec, hubA, hubB, s0, ms, BHears);
      more := HearsOut(exec, hubA, hubB, s0, ms + [BHears]);
    }
  }

  lemma {:induction false} RunKeepsQuiet<S>(exec: (S, string) -> S, hubA: bool, hubB: bool, s0: Session<S>,
                                            ms: seq<Move>)
    requires QuietRows(s0.a.last) && QuietRows(s0.b.last)
    ensures var s := Run(exec, hubA, hubB, s0, ms); QuietRows(s.a.last) && QuietRows(s.b.last)
  {
    hide QuietRows;
    hide Hears;
    hide Loud;
    if |ms| > 0 {
      RunKeepsQuiet(exec, hubA, hubB, s0, ms[..|ms| - 1]);
      var s := Run(exec, hubA, hubB, s0, ms[..|ms| - 1]);
      if |s.ba| > 0 { HearsLess(exec, hubA, s); }
      if |s.ab| > 0 { HearsLess(exec, hubB, Swap(s)); }
      HearsNothing(exec, hubA, s);
      HearsNothing(exec, hubB, Swap(s));
    }
  }

  lemma HearsNothing<S>(exec: (S, string) -> S, hub: bool, s: Session<S>)
    ensures |s.ba| == 0 ==> Hears(exec, hub, s) == s
  {}

  /** No session gets stuck or goes on for ever by itself, whatever the two logs: from wherever
      it is, it can be finished. */
  lemma SessionCanFinish<S>(exec: (S, string) -> S, s0: S, hubA: bool, hubB: bool, a: Store<S>, b: Store<S>,
                            ms: seq<Move>)
    returns (more: seq<Move>)
    requires Sound(exec, s0, a) && Sound(exec, s0, b)
    ensures ms <= more && Finished(Run(exec, hubA, hubB, Start(a, b), more))
  {
    hide Run;
    hide QuietRows;
    var start := Start(a, b);
    NumberedIsQuiet(a.last);
    NumberedIsQuiet(b.last);
    RunOneMore(exec, hubA, hubB, start, ms, ASays);
    RunOneMore(exec, hubA, hubB, start, ms + [ASays], BSays);
    RunKeepsQuiet(exec, hubA, hubB, start, ms + [ASays] + [BSays]);
    more := HearsOut(exec, hubA, hubB, start, ms + [ASays] + [BSays]);
  }

  lemma SameLogSameState<S>(exec: (S, string) -> S, s0: S, s: Session<S>)
    requires Sound(exec, s0, s.a) && Sound(exec, s0, s.b)
    ensures s.a.last == s.b.last ==> s.a == s.b
  {}

  // ---------------------------------------------------------------- writes

  function DbText(id: string, sql: string): string { "DB " + id + " " + sql }

  /** A command that changes the database: execute, log, and send the line. */
  function Written<S>(exec: (S, string) -> S, d: Store<S>, id: string, sql: string): Store<S> {
    Store(Stored(d.last, DbText(id, sql)), exec(d.state, sql))
  }

  /** A peer that hears the line does to its own database what the writer did. */
  lemma WriteHeard<S>(exec: (S, string) -> S, s: S, d: Store<S>, hub: bool, id: string, sql: string)
    requires |id| == 32 && IsToken(id, " ") && Sound(exec, s, d)
    ensures Handle(exec, d, hub, DbText(id, sql)) == Done(Written(exec, d, id, sql), [])
    ensures IdOf(DbText(id, sql)) == id && Framed(DbText(id, sql))
    ensures !Known(d.last, id) ==> Sound(exec, s, Written(exec, d, id, sql))
  {
    hide Handle;
    hide Stored;
    hide Sound;
    var line := DbText(id, sql);
    assert line[3..35] == id && line[..3] == "DB " && line[36..] == sql;
    DbLine(exec, s, d, hub, line);
  }

  function HearAll<S>(exec: (S, string) -> S, d: Store<S>, hub: bool, lines: seq<string>): Store<S>
    decreases |lines|
  {
    if |lines| == 0 then d
    else HearAll(exec, match Handle(exec, d, hub, lines[0]) case Done(e, _) => e case _ => d, hub, lines[1..])
  }

  lemma {:induction false} HearAllAppends<S>(exec: (S, string) -> S, d: Store<S>, hub: bool, lines: seq<string>)
    ensures d.last <= HearAll(exec, d, hub, lines).last
    decreases |lines|
  {
    if |lines| > 0 {
      HandleAppends(exec, d, hub, lines[0]);
      hide Handle;
      HearAllAppends(exec, match Handle(exec, d, hub, lines[0]) case Done(e, _) => e case _ => d, hub, lines[1..]);
    }
  }

  lemma HandleAppends<S>(exec: (S, string) -> S, d: Store<S>, hub: bool, line: string)
    ensures var h := Handle(exec, d, hub, line); h.Done? ==> d.last <= h.store.last
  {
    hide Tokens;
    hide Missing;
  }

  lemma HeardTwice<S>(exec: (S, string) -> S, s: S, d: Store<S>, hub: bool, id: string, sql: string)
    requires Sound(exec, s, d) && |id| == 32 && IsToken(id, " ") && !Known(d.last, id)
    ensures var line := DbText(id, sql);
            HearAll(exec, d, hub, [line, line]) ==
            Store(Written(exec, d, id, sql).last, exec(Written(exec, d, id, sql).state, sql))
  {
    var line, once := DbText(id, sql), Written(exec, d, id, sql);
    WriteHeard(exec, s, d, hub, id, sql);
    WriteHeard(exec, s, once, hub, id, sql);
    hide Handle;
    hide Sound;
    hide IdOf;
    hide DbText;
    assert once.last[|d.last|].id == id;
    assert Known(once.last, id) && Written(exec, once, id, sql).last == once.last;
    assert [line, line][1..] == [line] && [line][1..] == [];
    var twice := Written(exec, once, id, sql);
    assert HearAll(exec, twice, hub, []) == twice;
    assert HearAll(exec, once, hub, [line]) == twice;
  }

  /** A write made after the peer connected and before its version is answered reaches it first
      and again with the answer. The logs then agree if and only if the peer had lacked
      nothing; and even then the statement was executed twice. */
  lemma LateWriteAgreesIff<S>(exec: (S, string) -> S, s: S, hub: bool, a: Store<S>, b: Store<S>,
                           id: string, sql: string)
    requires Sound(exec, s, a) && Sound(exec, s, b) && a.last <= b.last
    requires |id| == 32 && IsToken(id, " ") && !Known(b.last, id)
    ensures var b' := Written(exec, b, id, sql);
            var a' := HearAll(exec, a, hub, [DbText(id, sql)] + Missing(b'.last, LastId(a.last)));
            (a'.last == b'.last <==> a.last == b.last) &&
            (a.last == b.last ==> a'.state == exec(b'.state, sql))
  {
    hide Handle;
    hide IdOf;
    hide DbText;
    hide Missing;
    hide HearAll;
    var b', line := Written(exec, b, id, sql), DbText(id, sql);
    if a.last == b.last {
      WriteHeard(exec, s, b, hub, id, sql);
      HeardTwice(exec, s, a, hub, id, sql);
      var k := |a.last|;
      assert b'.last[..k] == a.last;
      MissingAfter(b'.last, k);
      assert Texts(b'.last)[k..] == [line];
      assert [line] + [line] == [line, line];
    } else {
      hide Sound;
      LateWriteDiverges(exec, s, hub, a, b, id, sql, Missing(b'.last, LastId(a.last)));
    }
  }

  /** The exchange tolerates no write in between: one made after the peer connected and
      before its version is answered reaches the peer ahead of the rows it lacks, and the
      two logs differ for good, whatever is sent afterwards. */
  lemma LateWriteDiverges<S>(exec: (S, string) -> S, s: S, hub: bool, a: Store<S>, b: Store<S>, id: string,
                             sql: string, later: seq<string>)
    requires Sound(exec, s, a) && Sound(exec, s, b) && a.last < b.last
    requires |id| == 32 && IsToken(id, " ") && !Known(b.last, id)
    ensures var b' := Written(exec, b, id, sql);
            var a' := HearAll(exec, a, hub, [DbText(id, sql)] + later);
            !(a'.last <= b'.last) && !(b'.last <= a'.last)
  {
    hide Handle;
    hide Sound;
    hide Framed;
    hide IdOf;
    hide DbText;
    var line := DbText(id, sql);
    var n := |a.last|;
    WriteHeard(exec, s, a, hub, id, sql);
    WriteHeard(exec, s, b, hub, id, sql);
    assert forall i :: 0 <= i < n ==> a.last[i] == b.last[i];
    var heard := Written(exec, a, id, sql);
    assert heard.last[n].id == id && b.last[n].id != id;
    assert ([line] + later)[1..] == later;
    HearAllAppends(exec, heard, hub, later);
    assert HearAll(exec, a, hub, [line] + later).last[n].id == id;
  }
}
