/** Journal numbers: read the maximum, insert under a unique constraint, retry on collision. */
module JournalNumbering {
  import opened Wrappers
  import opened Digits

  const PREFIX := "JRN-"
  const MAX_ATTEMPTS := 8

  datatype Header = Header(company: string, number: string, author: string)

  /** Rows are only ever appended, so the table is kept in insertion order. */
  type Table = seq<Header>

  // ----- Printing and reading a number -----

  function Print(n: nat): string {
    PREFIX + PadLeft(ToDecimal(n), 8)
  }

  /** The digits after the prefix; a final newline is tolerated, as the pattern's `$` does. */
  function Parse(number: string): Option<nat> {
    if |number| < 4 || number[..4] != PREFIX then None
    else
      var rest := number[4..];
      var digits := if rest != "" && rest[|rest| - 1] == '\n' then rest[..|rest| - 1] else rest;
      if digits != "" && AllDigits(digits) then Some(Value(digits)) else None
  }

  /** Reading a printed number gives it back, however many digits it has. */
  lemma ParsePrint(n: nat)
    ensures Parse(Print(n)) == Some(n)
  {
    var digits := PadLeft(ToDecimal(n), 8);
    assert Print(n)[..4] == PREFIX && Print(n)[4..] == digits;
    assert IsDigit(digits[|digits| - 1]);
    PadReadBack(ToDecimal(n), 8);
    ReadBack(n);
  }

  /** Only numbers of this scheme count: the prefix and then digits alone, up to a final newline. */
  lemma ParsedForm(number: string)
    ensures Parse(number).Some? <==>
      && |number| >= 5 && number[..4] == "JRN-" && AllDigits(number[4..|number| - 1])
      && (IsDigit(number[|number| - 1]) || (number[|number| - 1] == '\n' && |number| >= 6))
  {
    if |number| >= 5 {
      var rest := number[4..];
      assert rest == number[4..|number| - 1] + [number[|number| - 1]];
      assert rest[..|rest| - 1] == number[4..|number| - 1];
    }
  }

  /** A printed number is the prefix and at least eight digits, no more than the number needs. */
  lemma PrintedForm(n: nat)
    ensures Print(n)[..4] == "JRN-" && |Print(n)| >= 12 && AllDigits(Print(n)[4..])
    ensures n < 100_000_000 ==> |Print(n)| == 12
  {
    var digits := PadLeft(ToDecimal(n), 8);
    assert Print(n)[..4] == PREFIX && Print(n)[4..] == digits;
    if n < 100_000_000 {
      assert Pow10(8) == 100_000_000 by {
        assert Pow10(2) == 10 * Pow10(1) && Pow10(4) == 100 * Pow10(2) && Pow10(6) == 100 * Pow10(4);
      }
      DecimalLength(n, 8);
    }
  }

  function Max(a: nat, b: nat): nat { if a < b then b else a }

  /** What a row counts for a company: its number, or nothing when it is another company's or not a number. */
  function NumberIn(row: Header, company: string): nat {
    if row.company == company && Parse(row.number).Some? then Parse(row.number).value else 0
  }

  /** The highest number in use by a company, 0 when it has none of this form. */
  function Highest(table: Table, company: string): (h: nat)
    ensures forall i {:trigger table[i]} :: 0 <= i < |table| ==> NumberIn(table[i], company) <= h
  {
    if table == [] then 0
    else
      var n := |table| - 1;
      Max(Highest(table[..n], company), NumberIn(table[n], company))
  }

  /** It is one of them, unless there is none. */
  lemma {:induction false} HighestIsUsed(table: Table, company: string)
    ensures Highest(table, company) == 0 || exists i {:trigger table[i]} ::
      0 <= i < |table| && table[i].company == company && Parse(table[i].number) == Some(Highest(table, company))
  {
    if table != [] {
      hide Parse;
      HighestIsUsed(table[..|table| - 1], company);
    }
  }

  predicate Taken(table: Table, company: string, number: string) {
    exists i :: 0 <= i < |table| && table[i].company == company && table[i].number == number
  }

  /** The number proposed by a read is not in the table it was read from. */
  lemma NextIsFree(table: Table, company: string)
    ensures !Taken(table, company, Print(Highest(table, company) + 1))
  {
    ParsePrint(Highest(table, company) + 1);
  }

  ghost predicate Unique(table: Table) {
    forall i, j :: 0 <= i < j < |table| ==> table[i].company != table[j].company || table[i].number != table[j].number
  }

  /** The unique constraint: a row is appended unless its number is taken. */
  function Commit(table: Table, h: Header): Table {
    if Taken(table, h.company, h.number) then table else table + [h]
  }

  function CommitAll(table: Table, hs: seq<Header>): Table {
    if hs == [] then table else Commit(CommitAll(table, hs[..|hs| - 1]), hs[|hs| - 1])
  }

  // ----- One call against arbitrary interference -----

  /** The call, when `others[k]` is what other callers try to commit between the read and the insert of attempt
      `k`: the final table, and the number obtained. */
  function Call(table: Table, company: string, author: string, others: seq<seq<Header>>, attempt: nat)
    : (Table, Option<string>)
    requires |others| == MAX_ATTEMPTS && attempt <= MAX_ATTEMPTS
    decreases MAX_ATTEMPTS - attempt
  {
    if attempt == MAX_ATTEMPTS then (table, None)
    else
      var number := Print(Highest(table, company) + 1);
      var crowded := CommitAll(table, others[attempt]);
      if Taken(crowded, company, number) then Call(crowded, company, author, others, attempt + 1)
      else (crowded + [Header(company, number, author)], Some(number))
  }

  lemma {:induction false} CommitAllAppends(table: Table, hs: seq<Header>)
    ensures table <= CommitAll(table, hs)
  {
    if hs != [] {
      CommitAllAppends(table, hs[..|hs| - 1]);
    }
  }

  ghost predicate InUse(table: Table, company: string, number: string) {
    exists row :: row in table && row.company == company && row.number == number
  }

  /** The rows before are kept, and an obtained number is that of a last row of that company and author, which no
      earlier row of the company has. */
  ghost predicate WroteRow(before: Table, after: Table, company: string, author: string, r: Option<string>) {
    && before <= after
    && (r.Some? ==>
          && |before| < |after| && !InUse(after[..|after| - 1], company, r.value)
          && after[|after| - 1] == Header(company, r.value, author))
  }

  lemma WroteNothing(table: Table, company: string, author: string)
    ensures WroteRow(table, table, company, author, None)
  {
  }

  lemma WroteAfter(a: Table, b: Table, c: Table, company: string, author: string, r: Option<string>)
    requires a <= b && WroteRow(b, c, company, author, r)
    ensures WroteRow(a, c, company, author, r)
  {
  }

  lemma WroteNow(a: Table, b: Table, company: string, author: string, number: string)
    requires a <= b && !Taken(b, company, number)
    ensures WroteRow(a, b + [Header(company, number, author)], company, author, Some(number))
  {
    var c := b + [Header(company, number, author)];
    assert c[..|c| - 1] == b;
  }

  /** What a call leaves, whatever others do meanwhile. */
  lemma {:induction false} CallWritesItsRow(
    table: Table, company: string, author: string, others: seq<seq<Header>>, attempt: nat)
    requires |others| == MAX_ATTEMPTS && attempt <= MAX_ATTEMPTS
    ensures
      var (after, r) := Call(table, company, author, others, attempt);
      WroteRow(table, after, company, author, r)
    decreases MAX_ATTEMPTS - attempt
  {
    hide Print, Highest, CommitAll, Taken, WroteRow;
    if attempt == MAX_ATTEMPTS {
      WroteNothing(table, company, author);
    } else {
      var number := Print(Highest(table, company) + 1);
      var crowded := CommitAll(table, others[attempt]);
      CommitAllAppends(table, others[attempt]);
      if Taken(crowded, company, number) {
        CallWritesItsRow(crowded, company, author, others, attempt + 1);
        var (after, r) := Call(crowded, company, author, others, attempt + 1);
        WroteAfter(table, crowded, after, company, author, r);
      } else {
        WroteNow(table, crowded, company, author, number);
      }
    }
  }

  class JournalStore {
    var table: Table

    constructor ()
      ensures table == []
    {
      table := [];
    }

    method NextJournalNumber(company: string) returns (number: string)
      ensures number == Print(Highest(table, company) + 1)
    {
      var highest := 0;
      for i := 0 to |table|
        invariant highest == Highest(table[..i], company)
      {
        assert table[..i + 1][..i] == table[..i];
        if table[i].company == company {
          var matched := Parse(table[i].number);
          if matched.Some? {
            highest := Max(highest, matched.value);
          }
        }
      }
      assert table[..|table|] == table;
      return Print(highest + 1);
    }

    /** Append a row; `false` is the integrity error of the unique constraint. */
    method Insert(h: Header) returns (ok: bool)
      modifies this
      ensures table == Commit(old(table), h)
      ensures ok <==> forall row :: row in old(table) ==> row.company != h.company || row.number != h.number
      ensures table == if ok then old(table) + [h] else old(table)
    {
      ok := !Taken(table, h.company, h.number);
      if ok {
        table := table + [h];
      }
    }

    method Interfere(hs: seq<Header>)
      modifies this
      ensures table == CommitAll(old(table), hs)
    {
      for i := 0 to |hs|
        invariant table == CommitAll(old(table), hs[..i])
      {
        assert hs[..i + 1][..i] == hs[..i];
        var ok := Insert(hs[i]);
      }
      assert hs[..|hs|] == hs;
    }

    /** Propose, insert, and start again when the number was taken meanwhile; give up after eight attempts. */
    method InsertWithNumber(company: string, author: string, others: seq<seq<Header>>) returns (r: Option<string>)
      requires |others| == 8
      modifies this
      ensures (table, r) == Call(old(table), company, author, others, 0)
      ensures WroteRow(old(table), table, company, author, r)
    {
      hide Print, Highest, Taken, CommitAll, WroteRow;
      CallWritesItsRow(table, company, author, others, 0);
      for attempt := 0 to MAX_ATTEMPTS
        invariant Call(table, company, author, others, attempt) == Call(old(table), company, author, others, 0)
      {
        var number := NextJournalNumber(company);
        Interfere(others[attempt]);
        var ok := Insert(Header(company, number, author));
        if ok {
          return Some(number);
        }
      }
      return None;
    }
  }

  /** Rows of one company written by somebody else. */
  function Others(table: Table, company: string, me: string): nat {
    if table == [] then 0
    else
      var last := table[|table| - 1];
      Others(table[..|table| - 1], company, me) + if last.company == company && last.author != me then 1 else 0
  }

  lemma OthersSnoc(table: Table, h: Header, company: string, me: string)
    ensures Others(table + [h], company, me)
         == Others(table, company, me) + if h.company == company && h.author != me then 1 else 0
  {
    assert (table + [h])[..|table|] == table;
  }

  // ----- Any number of callers, in any interleaving -----

  /** Where a caller stands: about to read, holding a proposed number, finished, or given up. `start` and `end`
      are table lengths, so the rows between them are those committed during the call. */
  datatype Caller =
    | Reading(company: string, attempt: nat, start: nat)
    | Holding(company: string, attempt: nat, start: nat, number: string)
    | Inserted(company: string, number: string)
    | GaveUp(company: string, start: nat, end: nat)

  datatype State = State(table: Table, callers: map<string, Caller>)

  datatype Event =
    | Begin(who: string, company: string)
    | Read(who: string)
    | TryInsert(who: string)
    | Import(row: Header)

  /** What each event does; an event that does not fit the caller's position leaves the state alone. */
  function Step(s: State, e: Event): State {
    match e
    case Begin(who, company) =>
      if who in s.callers && (s.callers[who].Reading? || s.callers[who].Holding?) then s
      else s.(callers := s.callers[who := Reading(company, 0, |s.table|)])
    case Read(who) =>
      if who in s.callers && s.callers[who].Reading? then
        var c := s.callers[who];
        var number := Print(Highest(s.table, c.company) + 1);
        s.(callers := s.callers[who := Holding(c.company, c.attempt, c.start, number)])
      else s
    case TryInsert(who) =>
      if who in s.callers && s.callers[who].Holding? then
        var c := s.callers[who];
        if !Taken(s.table, c.company, c.number) then
          State(s.table + [Header(c.company, c.number, who)], s.callers[who := Inserted(c.company, c.number)])
        else if c.attempt == MAX_ATTEMPTS - 1 then
          s.(callers := s.callers[who := GaveUp(c.company, c.start, |s.table|)])
        else s.(callers := s.callers[who := Reading(c.company, c.attempt + 1, c.start)])
      else s
    case Import(row) => s.(table := Commit(s.table, row))
  }

  /** Rows other callers committed for the company since `start`. */
  function Since(table: Table, start: nat, company: string, me: string): nat
    requires start <= |table|
  {
    Others(table[start..], company, me)
  }

  /** Imports are other people's rows: nobody imports under the name of a caller in progress. */
  ghost predicate Sensible(s: State, e: Event) {
    e.Import? ==> e.row.author !in s.callers
  }

  /** Every failed attempt so far, and a collision already waiting, is paid for by another caller's row. */
  ghost predicate CallerInv(table: Table, me: string, c: Caller) {
    match c
    case Reading(company, attempt, start) =>
      attempt < MAX_ATTEMPTS && start <= |table| && attempt <= Since(table, start, company, me)
    case Holding(company, attempt, start, number) =>
      && attempt < MAX_ATTEMPTS && start <= |table|
      && attempt + (if Taken(table, company, number) then 1 else 0) <= Since(table, start, company, me)
    case GaveUp(company, start, end) =>
      start <= end <= |table| && MAX_ATTEMPTS <= Others(table[start..end], company, me)
    case Inserted(company, number) => Header(company, number, me) in table
  }

  ghost predicate Inv(s: State) {
    && Unique(s.table)
    && forall who :: who in s.callers ==> CallerInv(s.table, who, s.callers[who])
  }

  lemma TakenSnoc(table: Table, h: Header, company: string, number: string)
    ensures Taken(table + [h], company, number)
       <==> Taken(table, company, number) || (h.company == company && h.number == number)
  {
    if Taken(table, company, number) {
      var i :| 0 <= i < |table| && table[i].company == company && table[i].number == number;
      assert (table + [h])[i] == table[i];
    }
    if h.company == company && h.number == number {
      assert (table + [h])[|table|] == h;
    }
  }

  /** A row by somebody else pays for any collision it causes. */
  lemma AppendKeepsCaller(table: Table, h: Header, me: string, c: Caller)
    requires CallerInv(table, me, c) && h.author != me && !Taken(table, h.company, h.number)
    ensures CallerInv(table + [h], me, c)
  {
    match c {
      case Inserted(company, number) =>
      case GaveUp(company, start, end) => assert (table + [h])[start..end] == table[start..end];
      case Reading(company, attempt, start) =>
        assert (table + [h])[start..] == table[start..] + [h];
        OthersSnoc(table[start..], h, company, me);
      case Holding(company, attempt, start, number) =>
        assert (table + [h])[start..] == table[start..] + [h];
        OthersSnoc(table[start..], h, company, me);
        TakenSnoc(table, h, company, number);
    }
  }

  lemma StepKeepsInv(s: State, e: Event)
    requires Inv(s) && Sensible(s, e)
    ensures Inv(Step(s, e))
  {
    var s' := Step(s, e);
    match e {
      case Begin(who, company) =>
        assert s.table[|s.table|..] == [];
      case Read(who) =>
        if who in s.callers && s.callers[who].Reading? {
          NextIsFree(s.table, s.callers[who].company);
        }
      case TryInsert(who) =>
        if who in s.callers && s.callers[who].Holding? {
          TryInsertKeepsInv(s, who);
        }
      case Import(row) =>
        if !Taken(s.table, row.company, row.number) {
          ImportKeepsInv(s, row);
        }
    }
  }

  lemma ImportKeepsInv(s: State, row: Header)
    requires Inv(s) && row.author !in s.callers && !Taken(s.table, row.company, row.number)
    ensures Inv(Step(s, Import(row)))
  {
    var table := s.table + [row];
    forall me | me in s.callers ensures CallerInv(table, me, s.callers[me]) {
      AppendKeepsCaller(s.table, row, me, s.callers[me]);
    }
  }

  lemma TryInsertKeepsInv(s: State, who: string)
    requires Inv(s) && who in s.callers && s.callers[who].Holding?
    ensures Inv(Step(s, TryInsert(who)))
  {
    var s', c := Step(s, TryInsert(who)), s.callers[who];
    if !Taken(s.table, c.company, c.number) {
      var h := Header(c.company, c.number, who);
      TakenSnoc(s.table, h, c.company, c.number);
      forall me | me in s'.callers
        ensures CallerInv(s'.table, me, s'.callers[me])
      {
        if me != who {
          AppendKeepsCaller(s.table, h, me, s.callers[me]);
        }
      }
    } else {
      assert CallerInv(s.table, who, c) && c.start <= |s.table|;
      assert s.table[c.start..|s.table|] == s.table[c.start..];
    }
  }

  datatype Run = Run(events: seq<Event>, states: seq<State>)

  ghost predicate ValidRun(run: Run) {
    && |run.states| == |run.events| + 1
    && run.states[0] == State([], map[])
    && forall k {:trigger run.events[k]} :: 0 <= k < |run.events| ==>
         Sensible(run.states[k], run.events[k]) && run.states[k + 1] == Step(run.states[k], run.events[k])
  }

  lemma {:induction false} RunKeepsInv(run: Run, n: nat)
    requires ValidRun(run) && n < |run.states|
    ensures Inv(run.states[n])
  {
    if n > 0 {
      RunKeepsInv(run, n - 1);
      StepKeepsInv(run.states[n - 1], run.events[n - 1]);
    }
  }

  /** In every interleaving: no two headers of a company share a number, and a call gives up only when at least
      eight other rows of the company were committed while it was running. */
  lemma NumbersAreUniqueAndCallsSucceed(run: Run, n: nat, who: string)
    requires ValidRun(run) && n < |run.states| && who in run.states[n].callers
    ensures
      var s := run.states[n];
      && Unique(s.table)
      && (s.callers[who].Inserted? ==>
            exists i :: 0 <= i < |s.table| && s.table[i] == Header(s.callers[who].company, s.callers[who].number, who))
      && (s.callers[who].GaveUp? ==>
            var c := s.callers[who];
            && c.start <= c.end <= |s.table|
            && exists rows :: |rows| >= 8 && RowsOfOthers(s.table, rows, c.start, c.end, c.company, who))
  {
    RunKeepsInv(run, n);
    var s := run.states[n];
    assert CallerInv(s.table, who, s.callers[who]);
    if s.callers[who].GaveUp? {
      var c := s.callers[who];
      var rows := Positions(s.table, c.start, c.end, c.company, who);
      assert RowsOfOthers(s.table, rows, c.start, c.end, c.company, who);
    }
  }

  /** Distinct positions, in ascending order, of rows that other authors wrote for the company. */
  ghost predicate RowsOfOthers(table: Table, rows: seq<nat>, start: nat, end: nat, company: string, me: string) {
    && (forall i, j :: 0 <= i < j < |rows| ==> rows[i] < rows[j])
    && forall i :: 0 <= i < |rows| ==>
         start <= rows[i] < end <= |table| && table[rows[i]].company == company && table[rows[i]].author != me
  }

  ghost function Positions(table: Table, start: nat, end: nat, company: string, me: string): (rows: seq<nat>)
    requires start <= end <= |table|
    ensures RowsOfOthers(table, rows, start, end, company, me)
    ensures |rows| == Others(table[start..end], company, me)
  {
    if start == end then []
    else
      var last := end - 1;
      assert table[start..end][..last - start] == table[start..last];
      Positions(table, start, last, company, me)
        + if table[last].company == company && table[last].author != me then [last] else []
  }

  // ----- The bound is tight -----

  /** Somebody else always takes the number just proposed. */
  function Rival(table: Table, company: string, rival: string, attempt: nat): (others: seq<seq<Header>>)
    requires attempt <= MAX_ATTEMPTS
    ensures |others| == MAX_ATTEMPTS - attempt
    ensures forall k :: 0 <= k < |others| ==> |others[k]| == 1
    decreases MAX_ATTEMPTS - attempt
  {
    if attempt == MAX_ATTEMPTS then []
    else
      var h := Header(company, Print(Highest(table, company) + 1), rival);
      [[h]] + Rival(table + [h], company, rival, attempt + 1)
  }

  /** Eight rows committed at the right moments make a call fail, from any table. */
  lemma EightRivalsDefeatACall(table: Table, company: string, author: string, rival: string)
    ensures var others := Rival(table, company, rival, 0);
      && |others| == 8 && (forall k :: 0 <= k < |others| ==> |others[k]| == 1)
      && Call(table, company, author, others, 0).1 == None
  {
    RivalsDefeat(table, company, author, rival, Rival(table, company, rival, 0), 0);
  }

  lemma CommitFree(table: Table, h: Header)
    requires !Taken(table, h.company, h.number)
    ensures CommitAll(table, [h]) == table + [h]
  {
    assert [h][..0] == [];
  }

  lemma {:induction false} RivalsDefeat(
    table: Table, company: string, author: string, rival: string, others: seq<seq<Header>>, attempt: nat)
    requires |others| == MAX_ATTEMPTS && attempt <= MAX_ATTEMPTS
    requires others[attempt..] == Rival(table, company, rival, attempt)
    ensures Call(table, company, author, others, attempt).1 == None
    decreases MAX_ATTEMPTS - attempt
  {
    hide Print, Highest, Taken, CommitAll;
    if attempt < MAX_ATTEMPTS {
      var h := Header(company, Print(Highest(table, company) + 1), rival);
      assert others[attempt] == others[attempt..][0] == [h];
      assert others[attempt + 1..] == others[attempt..][1..];
      NextIsFree(table, company);
      CommitFree(table, h);
      TakenSnoc(table, h, company, h.number);
      RivalsDefeat(table + [h], company, author, rival, others, attempt + 1);
    }
  }
}
