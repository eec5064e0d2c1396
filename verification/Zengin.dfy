/** The general transfer file of the Japanese bankers' association: records of 120 one-byte characters. */
module Zengin {
  import opened Wrappers
  import opened Sums
  import opened Digits

  /**
    * What is taken from the surrounding language and from the long kana table: `kana` gives the half-width spelling
    * of a full-width kana, the others say how characters outside the one-byte set behave.
    */
  datatype Text = Text(
    kana: char -> Option<string>, otherUpper: char -> string, otherDigit: char -> bool, otherSpace: char -> bool)

  const RECORD_LENGTH := 120

  datatype TransferError =
    | NoLines | TooManyLines | InvalidCharacters | NotDigits(field: string) | TooManyDigits(field: string)
    | NotWholeYen | AmountTooLong | UnknownAccountType | AmountNotPositive | NegativeFee | FeeExceedsAmount
    | BadRecordLength

  datatype TransferLine = TransferLine(
    bankCode: string, bankName: string, branchCode: string, branchName: string, accountType: string,
    accountNumber: string, recipientName: string, amount: Money, customerCode: string, feeBorneByRecipient: bool,
    transferFee: Money)

  datatype Request = Request(
    consignorCode: string, consignorName: string, month: nat, day: nat, bankCode: string, bankName: string,
    branchCode: string, branchName: string, accountType: string, accountNumber: string, lines: seq<TransferLine>)

  datatype LineResult = LineResult(
    recipientName: string, payable: Money, transferFee: Money, transferAmount: Money, feeBorneByRecipient: bool)

  datatype Transfer = Transfer(
    records: seq<string>, detailCount: nat, totalAmount: Money, totalFeeDeducted: Money, lines: seq<LineResult>)

  // ----- Characters -----

  predicate IsHalfKana(c: char) { '\U{FF61}' <= c <= '\U{FF9F}' }

  /** The characters that take one byte in the file's encoding; every other one takes two or cannot be encoded. */
  predicate OneByte(c: char) { c as int < 128 || IsHalfKana(c) }

  predicate IsLower(c: char) { 'a' <= c <= 'z' }

  /** The symbols the table lists as usable. */
  const LISTED_SYMBOLS := " .()-/\U{A5},\""

  /** The yen sign is not an ASCII character, so listing it among the symbols never admits it. */
  predicate Allowed(c: char) {
    || (c as int < 128 && ('0' <= c <= '9' || 'A' <= c <= 'Z' || IsLower(c) || c in LISTED_SYMBOLS))
    || IsHalfKana(c)
  }

  function Symbol(c: char): Option<string> {
    if c == '\U{FF08}' then Some("(")
    else if c == '\U{FF09}' then Some(")")
    else if c == '\U{FF0D}' || c == '\U{30FC}' then Some("-")
    else if c == '\U{FF0F}' then Some("/")
    else if c == '\U{FFE5}' || c == '\U{FF3C}' then Some("\U{A5}")
    else if c == '\U{FF0E}' then Some(".")
    else if c == '\U{FF0C}' then Some(",")
    else if c == '\U{201D}' then Some("\"")
    else None
  }

  function Upper(t: Text, c: char): string {
    if IsLower(c) then [(c as int - 32) as char] else if OneByte(c) then [c] else t.otherUpper(c)
  }

  predicate IsHiragana(c: char) { '\U{3041}' <= c <= '\U{3096}' }

  predicate IsFullWidth(c: char) {
    '\U{FF10}' <= c <= '\U{FF19}' || '\U{FF21}' <= c <= '\U{FF3A}' || '\U{FF41}' <= c <= '\U{FF5A}'
  }

  function ConvertChar(t: Text, c: char): string {
    if t.kana(c).Some? then t.kana(c).value
    else if Symbol(c).Some? then Symbol(c).value
    else if IsHiragana(c) && t.kana((c as int + 0x60) as char).Some? then t.kana((c as int + 0x60) as char).value
    else if IsFullWidth(c) then Upper(t, (c as int - 0xFEE0) as char)
    else Upper(t, c)
  }

  function Convert(t: Text, s: string): string {
    if s == "" then "" else Convert(t, s[..|s| - 1]) + ConvertChar(t, s[|s| - 1])
  }

  predicate AllAllowed(s: string) {
    forall i :: 0 <= i < |s| ==> Allowed(s[i])
  }

  function Charset(t: Text, s: string): Result<string, TransferError> {
    if AllAllowed(Convert(t, s)) then Ok(Convert(t, s)) else Err(InvalidCharacters)
  }

  method ToZenginCharset(t: Text, s: string) returns (r: Result<string, TransferError>)
    ensures r == Charset(t, s)
  {
    var converted := "";
    var i := 0;
    while i < |s|
      invariant 0 <= i <= |s| && converted == Convert(t, s[..i])
    {
      var c := s[i];
      assert s[..i + 1][..i] == s[..i];
      if t.kana(c).Some? {
        converted := converted + t.kana(c).value;
      } else if Symbol(c).Some? {
        converted := converted + Symbol(c).value;
      } else if IsHiragana(c) && t.kana((c as int + 0x60) as char).Some? {
        converted := converted + t.kana((c as int + 0x60) as char).value;
      } else if IsFullWidth(c) {
        converted := converted + Upper(t, (c as int - 0xFEE0) as char);
      } else {
        converted := converted + Upper(t, c);
      }
      i := i + 1;
    }
    assert s[..i] == s;
    if !AllAllowed(converted) {
      return Err(InvalidCharacters);
    }
    return Ok(converted);
  }

  /** The table of kana touches no one-byte character and no yen sign or full-width backslash, neither it nor
      upper-casing produces a small letter, and the yen sign has no other upper case. */
  ghost predicate GoodText(t: Text) {
    && (forall c: char :: t.kana(c).Some? ==> !OneByte(c))
    && (forall c: char, d: char :: t.kana(c).Some? && d in t.kana(c).value ==> !IsLower(d))
    && (forall c: char, d: char :: d in t.otherUpper(c) ==> !IsLower(d))
    && (forall c: char :: c in "\U{A5}\U{FFE5}\U{FF3C}" ==> t.kana(c).None?)
    && t.otherUpper('\U{A5}') == "\U{A5}"
  }

  predicate Final(c: char) { OneByte(c) && !IsLower(c) }

  predicate AllFinal(s: string) {
    forall i :: 0 <= i < |s| ==> Final(s[i])
  }

  lemma FinalCharStays(t: Text, c: char)
    requires GoodText(t) && Final(c)
    ensures ConvertChar(t, c) == [c]
  {
  }

  lemma NoSmallLetters(t: Text, c: char, d: char)
    requires GoodText(t) && d in ConvertChar(t, c)
    ensures !IsLower(d)
  {
    if !t.kana(c).Some? && !Symbol(c).Some? && IsFullWidth(c) {
      UpperHasNoSmall(t, (c as int - 0xFEE0) as char, d);
    } else if !t.kana(c).Some? && !Symbol(c).Some? && !IsHiragana(c) {
      UpperHasNoSmall(t, c, d);
    }
  }

  lemma UpperHasNoSmall(t: Text, c: char, d: char)
    requires GoodText(t)
    ensures d in Upper(t, c) ==> !IsLower(d)
  {
  }

  lemma {:induction false} ConvertedIsFinal(t: Text, s: string)
    requires GoodText(t)
    ensures forall i :: 0 <= i < |Convert(t, s)| && Allowed(Convert(t, s)[i]) ==> Final(Convert(t, s)[i])
  {
    if s != "" {
      var init, last := s[..|s| - 1], s[|s| - 1];
      ConvertedIsFinal(t, init);
      forall d | d in ConvertChar(t, last)
        ensures !IsLower(d)
      {
        NoSmallLetters(t, last, d);
      }
    }
  }

  lemma {:induction false} FinalStays(t: Text, s: string)
    requires GoodText(t) && AllFinal(s)
    ensures Convert(t, s) == s
  {
    if s != "" {
      hide ConvertChar, GoodText;
      FinalStays(t, s[..|s| - 1]);
      FinalCharStays(t, s[|s| - 1]);
      assert s == s[..|s| - 1] + [s[|s| - 1]];
    }
  }

  /** Converting accepted text a second time changes nothing. */
  lemma CharsetIsIdempotent(t: Text, s: string)
    requires GoodText(t) && Charset(t, s).Ok?
    ensures Charset(t, Charset(t, s).value) == Charset(t, s)
  {
    ConvertedIsFinal(t, s);
    FinalStays(t, Charset(t, s).value);
  }

  lemma {:induction false} ConvertKeeps(t: Text, s: string, i: nat, d: char)
    requires i < |s| && d in ConvertChar(t, s[i])
    ensures d in Convert(t, s)
  {
    if i < |s| - 1 {
      ConvertKeeps(t, s[..|s| - 1], i, d);
    }
  }

  /** No text with a yen sign, a full-width yen sign or a full-width backslash is ever accepted. */
  lemma YenSignIsRejected(t: Text, s: string, i: nat)
    requires GoodText(t) && i < |s| && s[i] in "\U{A5}\U{FFE5}\U{FF3C}"
    ensures Charset(t, s).Err?
  {
    assert '\U{A5}' in ConvertChar(t, s[i]);
    ConvertKeeps(t, s, i, '\U{A5}');
  }

  /** Of the listed symbols exactly the yen sign is not admitted; the others are accepted and stay as they are. */
  lemma OnlyTheYenSignIsLost(t: Text, c: char)
    requires GoodText(t) && c in LISTED_SYMBOLS
    ensures Allowed(c) <==> c != '\U{A5}'
    ensures Charset(t, [c]) == if c != '\U{A5}' then Ok([c]) else Err(InvalidCharacters)
  {
    assert [c][..0] == "";
    assert Convert(t, [c]) == ConvertChar(t, c);
    if c == '\U{A5}' {
      YenSignIsRejected(t, [c], 0);
    } else {
      FinalCharStays(t, c);
    }
  }

  /** Full-width digits, letters and the six full-width symbols have their one-byte counterparts 0xFEE0 below them;
      small letters become capitals. */
  lemma FullWidthConverts(t: Text, c: char)
    requires t.kana(c).None?
    requires IsShifted(c)
    ensures var code := c as int - 0xFEE0;
      ConvertChar(t, c) == [(if 97 <= code <= 122 then code - 32 else code) as char]
  {
  }

  ghost predicate IsShifted(c: char) {
    '\U{FF10}' <= c <= '\U{FF19}' || '\U{FF21}' <= c <= '\U{FF3A}' || '\U{FF41}' <= c <= '\U{FF5A}'
    || c in "\U{FF08}\U{FF09}\U{FF0D}\U{FF0F}\U{FF0E}\U{FF0C}"
  }

  /** The other symbols: the quotation mark, the long vowel mark, and the two that become a yen sign; a hiragana is
      spelled as the katakana 0x60 above it; any other one-byte character stays, but for small letters. */
  lemma OthersConvert(t: Text, c: char)
    requires GoodText(t) && t.kana(c).None?
    ensures c == '\U{201D}' ==> ConvertChar(t, c) == "\""
    ensures c == '\U{30FC}' ==> ConvertChar(t, c) == "-"
    ensures c == '\U{FFE5}' || c == '\U{FF3C}' ==> ConvertChar(t, c) == "\U{A5}"
    ensures '\U{3041}' <= c <= '\U{3096}' && t.kana((c as int + 0x60) as char).Some? ==>
      ConvertChar(t, c) == t.kana((c as int + 0x60) as char).value
    ensures c as int < 128 || '\U{FF61}' <= c <= '\U{FF9F}' ==>
      ConvertChar(t, c) == [if 'a' <= c <= 'z' then (c as int - 32) as char else c]
  {
  }

  /** Accepted text holds digits, capitals, half-width kana and the listed symbols other than the yen sign, and
      conversion of text that is nothing else refuses nothing. */
  lemma AcceptedAlphabet(t: Text, s: string)
    requires GoodText(t)
    ensures Charset(t, s).Ok? ==> forall i :: 0 <= i < |Charset(t, s).value| ==> InAlphabet(Charset(t, s).value[i])
    ensures (forall i :: 0 <= i < |s| ==> InAlphabet(s[i])) ==> Charset(t, s) == Ok(s)
  {
    ConvertedIsFinal(t, s);
    if forall i :: 0 <= i < |s| ==> InAlphabet(s[i]) {
      FinalStays(t, s);
    }
  }

  ghost predicate InAlphabet(c: char) {
    '0' <= c <= '9' || 'A' <= c <= 'Z' || c in " .()-/,\"" || '\U{FF61}' <= c <= '\U{FF9F}'
  }

  // ----- Fields -----

  function Spaces(n: nat): (s: string)
    ensures |s| == n && forall i :: 0 <= i < n ==> s[i] == ' '
  {
    seq(n, _ => ' ')
  }

  /** Cut to the width, and filled with spaces. */
  function Fill(s: string, width: nat): (r: string)
    ensures |r| == width
  {
    if |s| >= width then s[..width] else s + Spaces(width - |s|)
  }

  function TextField(t: Text, s: string, width: nat): (r: Result<string, TransferError>)
    ensures r.Ok? ==> |r.value| == width
  {
    var text := Charset(t, s);
    if text.Err? then text else Ok(Fill(text.value, width))
  }

  predicate IsSpace(t: Text, c: char) {
    if OneByte(c) then c == ' ' || 9 <= c as int <= 13 || 28 <= c as int <= 31 else t.otherSpace(c)
  }

  predicate IsAnyDigit(t: Text, c: char) {
    if OneByte(c) then IsDigit(c) else t.otherDigit(c)
  }

  function StripLeft(t: Text, s: string): string {
    if s != "" && IsSpace(t, s[0]) then StripLeft(t, s[1..]) else s
  }

  function Strip(t: Text, s: string): string
    decreases |s|
  {
    if s != "" && IsSpace(t, s[|s| - 1]) then Strip(t, s[..|s| - 1]) else StripLeft(t, s)
  }

  /** The one-byte characters that count as blank around a number. */
  lemma BlanksAre(t: Text, c: char)
    requires c as int < 128
    ensures IsSpace(t, c) <==> c in " \t\n\r\U{0B}\U{0C}\U{1C}\U{1D}\U{1E}\U{1F}"
  {
  }

  lemma {:induction false} StripLeftMeans(t: Text, s: string) returns (a: string)
    ensures s == a + StripLeft(t, s) && forall c :: c in a ==> IsSpace(t, c)
    ensures StripLeft(t, s) != "" ==> !IsSpace(t, StripLeft(t, s)[0])
  {
    a := "";
    if s != "" && IsSpace(t, s[0]) {
      var rest := StripLeftMeans(t, s[1..]);
      a := [s[0]] + rest;
      assert s == [s[0]] + s[1..];
    }
  }

  /** Blanks at both ends are taken off, all of them, and nothing else. */
  lemma {:induction false} StripMeans(t: Text, s: string) returns (a: string, b: string)
    ensures s == a + Strip(t, s) + b && forall c :: c in a + b ==> IsSpace(t, c)
    ensures Strip(t, s) != "" ==> !IsSpace(t, Strip(t, s)[0]) && !IsSpace(t, Strip(t, s)[|Strip(t, s)| - 1])
    decreases |s|
  {
    if s != "" && IsSpace(t, s[|s| - 1]) {
      a, b := StripMeans(t, s[..|s| - 1]);
      assert s == s[..|s| - 1] + [s[|s| - 1]];
      b := b + [s[|s| - 1]];
    } else {
      a := StripLeftMeans(t, s);
      b := "";
    }
  }

  function NumberField(t: Text, s: string, width: nat, name: string): (r: Result<string, TransferError>)
    ensures r.Ok? ==> |r.value| == width
  {
    var digits := Strip(t, s);
    if digits == "" || exists i :: 0 <= i < |digits| && !IsAnyDigit(t, digits[i]) then Err(NotDigits(name))
    else if |digits| > width then Err(TooManyDigits(name))
    else Ok(PadLeft(digits, width))
  }

  function AmountField(value: Money, width: nat): (r: Result<string, TransferError>)
    requires value >= 0.0
    ensures r.Ok? ==> |r.value| == width && AllDigits(r.value)
  {
    if value != value.Floor as real then Err(NotWholeYen)
    else if |ToDecimal(value.Floor)| > width then Err(AmountTooLong)
    else Ok(PadLeft(ToDecimal(value.Floor), width))
  }

  function AccountTypeField(s: string): Result<string, TransferError> {
    if s == "1" || s == "2" || s == "4" then Ok(s) else Err(UnknownAccountType)
  }

  lemma AmountReadsBack(value: Money, width: nat)
    requires value >= 0.0 && AmountField(value, width).Ok?
    ensures
      var field := AmountField(value, width).value;
      |field| == width && AllDigits(field) && Value(field) as real == value
  {
    ReadBack(value.Floor);
    PadReadBack(ToDecimal(value.Floor), width);
  }

  /** An amount fits exactly when it is whole yen below the power of ten of the width; each misfit is named. */
  lemma AmountFitsExactlyWhen(value: Money, width: nat)
    requires value >= 0.0 && width >= 1
    ensures AmountField(value, width).Ok? <==> value.Floor as real == value && value < Pow10(width) as real
    ensures value.Floor as real != value ==> AmountField(value, width) == Err(NotWholeYen)
    ensures value.Floor as real == value && value >= Pow10(width) as real ==>
      AmountField(value, width) == Err(AmountTooLong)
  {
    if value.Floor < Pow10(width) {
      DecimalLength(value.Floor, width);
    } else {
      DecimalIsLonger(value.Floor, width);
    }
  }

  // ----- Records as joined fields -----

  type Field = Result<string, TransferError>

  /** The fields one after another, or the first complaint. */
  function Join(fields: seq<Field>): Field {
    if fields == [] then Ok("")
    else
      var before, last := Join(fields[..|fields| - 1]), fields[|fields| - 1];
      if before.Err? then before else if last.Err? then last else Ok(before.value + last.value)
  }

  predicate Fits(fields: seq<Field>, widths: seq<nat>) {
    && |fields| == |widths|
    && forall i {:trigger fields[i]} :: 0 <= i < |fields| && fields[i].Ok? ==> |fields[i].value| == widths[i]
  }

  function Width(widths: seq<nat>): nat {
    if widths == [] then 0 else Width(widths[..|widths| - 1]) + widths[|widths| - 1]
  }

  /** A record is as long as its fields, and each field can be cut out of it by its offset. */
  lemma {:induction false} FieldsReadBack(fields: seq<Field>, widths: seq<nat>, k: nat)
    requires Fits(fields, widths) && Join(fields).Ok? && k < |fields|
    ensures fields[k].Ok? && |Join(fields).value| == Width(widths)
    ensures
      var from := Width(widths[..k]);
      && from + widths[k] <= |Join(fields).value|
      && Join(fields).value[from..from + widths[k]] == fields[k].value
  {
    var n := |fields| - 1;
    var init, w := fields[..n], widths[..n];
    assert Fits(init, w);
    if k < n {
      FieldsReadBack(init, w, k);
      assert w[..k] == widths[..k];
    } else if n > 0 {
      FieldsReadBack(init, w, 0);
    }
  }

  lemma {:induction false} JoinKeeps(fields: seq<Field>, c: char)
    requires Join(fields).Ok? && c in Join(fields).value
    ensures exists i :: 0 <= i < |fields| && fields[i].Ok? && c in fields[i].value
  {
    if fields != [] {
      var init := fields[..|fields| - 1];
      if c in Join(init).value {
        JoinKeeps(init, c);
        var i :| 0 <= i < |init| && init[i].Ok? && c in init[i].value;
        assert fields[i].Ok? && c in fields[i].value;
      }
    }
  }

  function TwoDigits(n: nat): string { PadLeft(ToDecimal(n), 2) }

  function HeaderFields(t: Text, r: Request): seq<Field> {
    [ Ok("1"), Ok("21"), Ok("0"),
      NumberField(t, r.consignorCode, 10, "consignor_code"), TextField(t, r.consignorName, 40),
      Ok(TwoDigits(r.month) + TwoDigits(r.day)),
      NumberField(t, r.bankCode, 4, "bank_code"), TextField(t, r.bankName, 15),
      NumberField(t, r.branchCode, 3, "branch_code"), TextField(t, r.branchName, 15),
      AccountTypeField(r.accountType), NumberField(t, r.accountNumber, 7, "account_number"), Ok(Spaces(17))]
  }

  const HEADER_WIDTHS: seq<nat> := [1, 2, 1, 10, 40, 4, 4, 15, 3, 15, 1, 7, 17]

  function DataFields(t: Text, l: TransferLine, amount: Money): seq<Field>
    requires amount >= 0.0
  {
    [ Ok("2"),
      NumberField(t, l.bankCode, 4, "bank_code"), TextField(t, l.bankName, 15),
      NumberField(t, l.branchCode, 3, "branch_code"), TextField(t, l.branchName, 15), Ok(Spaces(4)),
      AccountTypeField(l.accountType), NumberField(t, l.accountNumber, 7, "account_number"),
      TextField(t, l.recipientName, 30), AmountField(amount, 10), Ok("0"), TextField(t, l.customerCode, 10),
      Ok(Spaces(10)), Ok("7"), Ok(" "), Ok(Spaces(7))]
  }

  const DATA_WIDTHS: seq<nat> := [1, 4, 15, 3, 15, 4, 1, 7, 30, 10, 1, 10, 10, 1, 1, 7]

  function TrailerFields(count: nat, total: Money): seq<Field>
    requires total >= 0.0
  {
    [Ok("8"), Ok(PadLeft(ToDecimal(count), 6)), AmountField(total, 12), Ok(Spaces(101))]
  }

  const TRAILER_WIDTHS: seq<nat> := [1, 6, 12, 101]

  function EndRecord(): string { "9" + Spaces(119) }

  // ----- The whole file -----

  function FeeOf(l: TransferLine): Money { if l.feeBorneByRecipient then l.transferFee else 0.0 }
  function PayableOf(l: TransferLine): Money { l.amount }

  /** What is transferred: the amount, less a fee the recipient bears. */
  function Transferred(l: TransferLine): Money { l.amount - FeeOf(l) }

  function LineProblem(l: TransferLine): Option<TransferError> {
    if l.amount <= 0.0 then Some(AmountNotPositive)
    else if l.transferFee < 0.0 then Some(NegativeFee)
    else if Transferred(l) <= 0.0 then Some(FeeExceedsAmount)
    else None
  }

  function DataRecord(t: Text, l: TransferLine): Field {
    if LineProblem(l).Some? then Err(LineProblem(l).value) else Join(DataFields(t, l, Transferred(l)))
  }

  function DataRecords(t: Text, lines: seq<TransferLine>): Result<seq<string>, TransferError> {
    if lines == [] then Ok([])
    else
      var before, last := DataRecords(t, lines[..|lines| - 1]), DataRecord(t, lines[|lines| - 1]);
      if before.Err? then before else if last.Err? then Err(last.error) else Ok(before.value + [last.value])
  }

  function LineResults(t: Text, lines: seq<TransferLine>): seq<LineResult> {
    if lines == [] then []
    else
      var last := lines[|lines| - 1];
      var name := Charset(t, last.recipientName);
      LineResults(t, lines[..|lines| - 1])
      + [LineResult(
           if name.Ok? then name.value else "", last.amount, last.transferFee, Transferred(last),
           last.feeBorneByRecipient)]
  }

  function ByteLength(s: string): nat {
    if s == "" then 0 else ByteLength(s[..|s| - 1]) + if OneByte(s[|s| - 1]) then 1 else 2
  }

  predicate AllFixed(records: seq<string>) {
    forall i :: 0 <= i < |records| ==> ByteLength(records[i]) == RECORD_LENGTH
  }

  lemma JoinSnoc(fields: seq<Field>, last: Field)
    ensures Join(fields + [last]) ==
      if Join(fields).Err? then Join(fields) else if last.Err? then last else Ok(Join(fields).value + last.value)
  {
    assert (fields + [last])[..|fields|] == fields;
  }

  lemma TrailerError(count: nat, total: Money)
    requires total >= 0.0
    ensures Join(TrailerFields(count, total)).Ok? <==> AmountField(total, 12).Ok?
    ensures Join(TrailerFields(count, total)).Err? ==>
      Join(TrailerFields(count, total)).error == AmountField(total, 12).error
  {
    var fields := TrailerFields(count, total);
    JoinSnoc([], fields[0]);
    JoinSnoc([fields[0]], fields[1]);
    JoinSnoc([fields[0], fields[1]], fields[2]);
    JoinSnoc([fields[0], fields[1], fields[2]], fields[3]);
    assert [] + [fields[0]] == [fields[0]];
    assert [fields[0]] + [fields[1]] == [fields[0], fields[1]];
    assert [fields[0], fields[1]] + [fields[2]] == [fields[0], fields[1], fields[2]];
    assert [fields[0], fields[1], fields[2]] + [fields[3]] == fields;
  }

  /** The records of a request whose fields are all in order. */
  function RecordsOf(t: Text, r: Request): seq<string>
    requires Join(HeaderFields(t, r)).Ok? && DataRecords(t, r.lines).Ok? && Total(r.lines, Transferred) >= 0.0
    requires AmountField(Total(r.lines, Transferred), 12).Ok?
  {
    var total := Total(r.lines, Transferred);
    TrailerError(|r.lines|, total);
    [Join(HeaderFields(t, r)).value] + DataRecords(t, r.lines).value
    + [Join(TrailerFields(|r.lines|, total)).value, EndRecord()]
  }

  /** What an accepted request is turned into. */
  ghost predicate IsTransfer(t: Text, r: Request, out: Transfer) {
    var data := DataRecords(t, r.lines);
    && 0 < |r.lines| <= 999999
    && Join(HeaderFields(t, r)).Ok? && data.Ok?
    && out.totalAmount == Total(r.lines, Transferred) >= 0.0
    && AmountField(out.totalAmount, 12).Ok?
    && out.records == RecordsOf(t, r)
    && AllFixed(out.records)
    && out.detailCount == |r.lines|
    && out.totalFeeDeducted == Total(r.lines, FeeOf)
    && out.lines == LineResults(t, r.lines)
  }

  lemma {:induction false} TotalIsPositive(t: Text, lines: seq<TransferLine>)
    requires DataRecords(t, lines).Ok?
    ensures Total(lines, Transferred) >= 0.0 && |DataRecords(t, lines).value| == |lines|
  {
    if lines != [] {
      TotalIsPositive(t, lines[..|lines| - 1]);
    }
  }

  lemma {:induction false} ErrorStays(t: Text, lines: seq<TransferLine>, n: nat)
    requires n <= |lines| && DataRecords(t, lines[..n]).Err?
    ensures DataRecords(t, lines) == DataRecords(t, lines[..n])
  {
    if n < |lines| {
      assert lines[..|lines| - 1][..n] == lines[..n];
      ErrorStays(t, lines[..|lines| - 1], n);
    } else {
      assert lines[..n] == lines;
    }
  }

  datatype Details = Details(records: seq<string>, results: seq<LineResult>, amount: Money, fee: Money)

  method WriteDetails(t: Text, lines: seq<TransferLine>) returns (r: Result<Details, TransferError>)
    ensures r.Ok? <==> DataRecords(t, lines).Ok?
    ensures r.Err? ==> r.error == DataRecords(t, lines).error
    ensures r.Ok? ==>
      r.value == Details(
        DataRecords(t, lines).value, LineResults(t, lines), Total(lines, Transferred), Total(lines, FeeOf))
  {
    var records: seq<string>, results: seq<LineResult> := [], [];
    var amount, fees := 0.0, 0.0;
    var i := 0;
    while i < |lines|
      invariant 0 <= i <= |lines|
      invariant DataRecords(t, lines[..i]) == Ok(records) && results == LineResults(t, lines[..i])
      invariant amount == Total(lines[..i], Transferred) && fees == Total(lines[..i], FeeOf)
    {
      var l := lines[i];
      assert lines[..i + 1][..i] == lines[..i];
      var record := DataRecord(t, l);
      if record.Err? {
        ErrorStays(t, lines, i + 1);
        return Err(record.error);
      }
      var name := ToZenginCharset(t, l.recipientName);
      var fee := if l.feeBorneByRecipient then l.transferFee else 0.0;
      records := records + [record.value];
      results := results + [LineResult(
        if name.Ok? then name.value else "", l.amount, l.transferFee, l.amount - fee, l.feeBorneByRecipient)];
      amount, fees := amount + (l.amount - fee), fees + fee;
      i := i + 1;
    }
    assert lines[..i] == lines;
    return Ok(Details(records, results, amount, fees));
  }

  method Generate(t: Text, r: Request) returns (out: Result<Transfer, TransferError>)
    ensures out.Ok? ==> IsTransfer(t, r, out.value)
    ensures r.lines == [] ==> out == Err(NoLines)
    ensures |r.lines| > 999999 ==> out == Err(TooManyLines)
    ensures 0 < |r.lines| <= 999999 && Join(HeaderFields(t, r)).Err? ==> out == Err(Join(HeaderFields(t, r)).error)
    ensures 0 < |r.lines| <= 999999 && Join(HeaderFields(t, r)).Ok? && DataRecords(t, r.lines).Err? ==>
      out == Err(DataRecords(t, r.lines).error)
    ensures 0 < |r.lines| <= 999999 && Join(HeaderFields(t, r)).Ok? && DataRecords(t, r.lines).Ok? ==>
      && Total(r.lines, Transferred) >= 0.0
      && (out.Ok? <==> AmountField(Total(r.lines, Transferred), 12).Ok? && AllFixed(RecordsOf(t, r)))
    ensures 0 < |r.lines| <= 999999 && Join(HeaderFields(t, r)).Ok? && DataRecords(t, r.lines).Ok? && out.Err? ==>
      var trailer := AmountField(Total(r.lines, Transferred), 12);
      out.error == if trailer.Err? then trailer.error else BadRecordLength
  {
    if r.lines == [] {
      return Err(NoLines);
    }
    if |r.lines| > 999999 {
      return Err(TooManyLines);
    }
    var header := Join(HeaderFields(t, r));
    if header.Err? {
      return Err(header.error);
    }
    var details := WriteDetails(t, r.lines);
    if details.Err? {
      return Err(details.error);
    }
    var d := details.value;
    TotalIsPositive(t, r.lines);
    TrailerError(|r.lines|, d.amount);
    var trailer := Join(TrailerFields(|r.lines|, d.amount));
    if trailer.Err? {
      return Err(trailer.error);
    }
    var records := [header.value] + d.records + [trailer.value, EndRecord()];
    if !AllFixed(records) {
      return Err(BadRecordLength);
    }
    return Ok(Transfer(records, |r.lines|, d.amount, d.fee, d.results));
  }

  // ----- What an accepted file guarantees -----

  lemma WidthNext(widths: seq<nat>, k: nat)
    requires k < |widths|
    ensures Width(widths[..k + 1]) == Width(widths[..k]) + widths[k]
  {
    assert widths[..k + 1][..k] == widths[..k];
  }

  lemma HeaderLayout()
    ensures Width(HEADER_WIDTHS) == RECORD_LENGTH
  {
    WidthNext(HEADER_WIDTHS, 0);
    WidthNext(HEADER_WIDTHS, 1);
    WidthNext(HEADER_WIDTHS, 2);
    WidthNext(HEADER_WIDTHS, 3);
    WidthNext(HEADER_WIDTHS, 4);
    WidthNext(HEADER_WIDTHS, 5);
    WidthNext(HEADER_WIDTHS, 6);
    WidthNext(HEADER_WIDTHS, 7);
    WidthNext(HEADER_WIDTHS, 8);
    WidthNext(HEADER_WIDTHS, 9);
    WidthNext(HEADER_WIDTHS, 10);
    WidthNext(HEADER_WIDTHS, 11);
    WidthNext(HEADER_WIDTHS, 12);
    assert HEADER_WIDTHS[..13] == HEADER_WIDTHS;
  }

  /** The amount of a data record starts at its 81st character. */
  lemma AmountOffset()
    ensures Width(DATA_WIDTHS[..9]) == 80
  {
    WidthNext(DATA_WIDTHS, 0);
    WidthNext(DATA_WIDTHS, 1);
    WidthNext(DATA_WIDTHS, 2);
    WidthNext(DATA_WIDTHS, 3);
    WidthNext(DATA_WIDTHS, 4);
    WidthNext(DATA_WIDTHS, 5);
    WidthNext(DATA_WIDTHS, 6);
    WidthNext(DATA_WIDTHS, 7);
    WidthNext(DATA_WIDTHS, 8);
  }

  lemma DataLayout()
    ensures Width(DATA_WIDTHS) == RECORD_LENGTH && Width(DATA_WIDTHS[..9]) == 80
  {
    AmountOffset();
    WidthNext(DATA_WIDTHS, 9);
    WidthNext(DATA_WIDTHS, 10);
    WidthNext(DATA_WIDTHS, 11);
    WidthNext(DATA_WIDTHS, 12);
    WidthNext(DATA_WIDTHS, 13);
    WidthNext(DATA_WIDTHS, 14);
    WidthNext(DATA_WIDTHS, 15);
    assert DATA_WIDTHS[..16] == DATA_WIDTHS;
  }

  lemma TrailerLayout()
    ensures Width(TRAILER_WIDTHS) == RECORD_LENGTH
    ensures Width(TRAILER_WIDTHS[..0]) == 0 && Width(TRAILER_WIDTHS[..1]) == 1 && Width(TRAILER_WIDTHS[..2]) == 7
    ensures Width(TRAILER_WIDTHS[..3]) == 19
  {
    WidthNext(TRAILER_WIDTHS, 0);
    WidthNext(TRAILER_WIDTHS, 1);
    WidthNext(TRAILER_WIDTHS, 2);
    WidthNext(TRAILER_WIDTHS, 3);
    assert TRAILER_WIDTHS[..4] == TRAILER_WIDTHS;
  }

  ghost predicate ValidDay(r: Request) { 1 <= r.month <= 12 && 1 <= r.day <= 31 }

  lemma HeaderFits(t: Text, r: Request)
    requires ValidDay(r)
    ensures Fits(HeaderFields(t, r), HEADER_WIDTHS)
  {
    hide NumberField, TextField, ToDecimal, PadLeft, TwoDigits;
    DayDigits(r.month, r.day);
  }

  lemma DayDigits(month: nat, day: nat)
    requires month < 100 && day < 100
    ensures |TwoDigits(month) + TwoDigits(day)| == 4
  {
    assert Pow10(2) == 10 * Pow10(1) && Pow10(1) == 10 * Pow10(0);
    DecimalLength(month, 2);
    DecimalLength(day, 2);
  }

  lemma TrailerFits(count: nat, total: Money)
    requires count <= 999999 && total >= 0.0
    ensures Fits(TrailerFields(count, total), TRAILER_WIDTHS)
  {
    assert Pow10(6) == 1000000 by {
      assert Pow10(2) == 10 * Pow10(1) && Pow10(1) == 10 * Pow10(0);
      assert Pow10(4) == 10 * Pow10(3) && Pow10(3) == 10 * Pow10(2);
      assert Pow10(6) == 10 * Pow10(5) && Pow10(5) == 10 * Pow10(4);
    }
    DecimalLength(count, 6);
  }

  lemma DataFits(t: Text, l: TransferLine, amount: Money)
    requires amount >= 0.0
    ensures Fits(DataFields(t, l, amount), DATA_WIDTHS)
  {
  }

  /** A data record is 120 characters, and its characters 81 to 90 are the amount. */
  lemma DataRecordReadsBack(t: Text, l: TransferLine)
    requires DataRecord(t, l).Ok?
    ensures
      var record := DataRecord(t, l).value;
      && |record| == 120 && AllDigits(record[80..90])
      && Value(record[80..90]) as real == Transferred(l)
  {
    hide DataFields, Fits, Width;
    DataFits(t, l, Transferred(l));
    DataLayout();
    AmountIsTheTenthField(t, l, Transferred(l));
    FieldCutOut(DataFields(t, l, Transferred(l)), DATA_WIDTHS, 9, DataRecord(t, l).value, 80, 10);
    AmountReadsBack(Transferred(l), 10);
  }

  lemma AmountIsTheTenthField(t: Text, l: TransferLine, amount: Money)
    requires amount >= 0.0
    ensures |DataFields(t, l, amount)| == |DATA_WIDTHS| == 16 && DATA_WIDTHS[9] == 10
    ensures DataFields(t, l, amount)[9] == AmountField(amount, 10)
  {
  }

  lemma FieldCutOut(fields: seq<Field>, widths: seq<nat>, k: nat, record: string, from: nat, width: nat)
    requires Fits(fields, widths) && Join(fields) == Ok(record) && k < |fields|
    requires Width(widths) == RECORD_LENGTH && Width(widths[..k]) == from && widths[k] == width
    ensures |record| == RECORD_LENGTH && from + width <= RECORD_LENGTH
    ensures fields[k].Ok? && record[from..from + width] == fields[k].value
  {
    FieldsReadBack(fields, widths, k);
  }

  lemma {:induction false} DataRecordAt(t: Text, lines: seq<TransferLine>, i: nat)
    requires DataRecords(t, lines).Ok? && i < |lines|
    ensures DataRecord(t, lines[i]).Ok? && |DataRecords(t, lines).value| == |lines|
    ensures DataRecords(t, lines).value[i] == DataRecord(t, lines[i]).value
  {
    TotalIsPositive(t, lines);
    if i < |lines| - 1 {
      DataRecordAt(t, lines[..|lines| - 1], i);
    }
  }

  lemma HeaderLength(t: Text, r: Request)
    requires ValidDay(r) && Join(HeaderFields(t, r)).Ok?
    ensures |Join(HeaderFields(t, r)).value| == RECORD_LENGTH
  {
    HeaderFits(t, r);
    HeaderLayout();
    FieldsReadBack(HeaderFields(t, r), HEADER_WIDTHS, 0);
  }

  lemma TrailerReadsBack(count: nat, total: Money)
    requires count <= 999999 && total >= 0.0 && Join(TrailerFields(count, total)).Ok?
    ensures
      var record := Join(TrailerFields(count, total)).value;
      && |record| == 120 && record[0] == '8' && BlankAt(record, 19, 101)
      && AllDigits(record[1..7]) && Value(record[1..7]) == count
      && AllDigits(record[7..19]) && Value(record[7..19]) as real == total
  {
    var fields := TrailerFields(count, total);
    TrailerFits(count, total);
    TrailerLayout();
    FieldsReadBack(fields, TRAILER_WIDTHS, 0);
    FieldsReadBack(fields, TRAILER_WIDTHS, 1);
    FieldsReadBack(fields, TRAILER_WIDTHS, 2);
    FieldsReadBack(fields, TRAILER_WIDTHS, 3);
    var record := Join(fields).value;
    assert record[0..1][0] == record[0];
    BlankCut(record, 19, 101);
    TrailerError(count, total);
    ReadBack(count);
    PadReadBack(ToDecimal(count), 6);
    AmountReadsBack(total, 12);
  }

  // ----- Every field of a record, by its place -----

  /** The places hold the number given, with zeros before it. */
  ghost predicate NumberAt(record: string, from: nat, width: nat, s: string) {
    && from + width <= |record|
    && (s != "" && AllDigits(s) ==>
          && |s| <= width && record[from + width - |s|..from + width] == s
          && forall k :: from <= k < from + width - |s| ==> record[k] == '0')
  }

  /** The places hold the converted text, cut off or filled with spaces. */
  ghost predicate TextAt(t: Text, record: string, from: nat, width: nat, s: string) {
    && from + width <= |record| && Charset(t, s).Ok?
    && forall k :: 0 <= k < width ==>
         record[from + k] == if k < |Charset(t, s).value| then Charset(t, s).value[k] else ' '
  }

  ghost predicate BlankAt(record: string, from: nat, width: nat) {
    from + width <= |record| && forall k :: from <= k < from + width ==> record[k] == ' '
  }

  lemma {:induction false} PadForm(s: string, width: nat)
    requires |s| <= width
    ensures |PadLeft(s, width)| == width && PadLeft(s, width)[width - |s|..] == s
    ensures forall k :: 0 <= k < width - |s| ==> PadLeft(s, width)[k] == '0'
    decreases width - |s|
  {
    if |s| < width {
      PadForm("0" + s, width);
      var r := PadLeft("0" + s, width);
      assert r[width - |s| - 1..][1..] == r[width - |s|..];
      assert ("0" + s)[1..] == s;
      assert r[width - |s| - 1..][0] == '0';
    }
  }

  lemma {:induction false} DigitsAreNotStripped(t: Text, s: string)
    requires AllDigits(s)
    ensures Strip(t, s) == s
  {
    if s != "" {
      assert !IsSpace(t, s[|s| - 1]) && !IsSpace(t, s[0]);
    }
  }

  /** A string of digits is accepted as a number exactly when it is not empty and not too long. */
  lemma NumberIs(t: Text, s: string, width: nat, name: string)
    requires AllDigits(s)
    ensures NumberField(t, s, width, name).Ok? <==> 0 < |s| <= width
    ensures NumberField(t, s, width, name).Ok? ==> NumberAt(NumberField(t, s, width, name).value, 0, width, s)
  {
    DigitsAreNotStripped(t, s);
    if 0 < |s| <= width {
      PadForm(s, width);
    }
  }

  /** A field cut out of a record, as places of the record. */
  lemma NumberCut(t: Text, record: string, from: nat, width: nat, s: string, name: string)
    requires from + width <= |record| && NumberField(t, s, width, name) == Ok(record[from..from + width])
    ensures NumberAt(record, from, width, s)
  {
    if s != "" && AllDigits(s) {
      NumberIs(t, s, width, name);
      var field := record[from..from + width];
      assert record[from + width - |s|..from + width] == field[width - |s|..width];
      forall k | from <= k < from + width - |s|
        ensures record[k] == '0'
      {
        assert record[k] == field[k - from];
      }
    }
  }

  lemma TextCut(t: Text, record: string, from: nat, width: nat, s: string)
    requires from + width <= |record| && TextField(t, s, width) == Ok(record[from..from + width])
    ensures TextAt(t, record, from, width, s)
  {
    var field := record[from..from + width];
    forall k | 0 <= k < width
      ensures record[from + k] == if k < |Charset(t, s).value| then Charset(t, s).value[k] else ' '
    {
      assert record[from + k] == field[k];
    }
  }

  lemma BlankCut(record: string, from: nat, width: nat)
    requires from + width <= |record| && Spaces(width) == record[from..from + width]
    ensures BlankAt(record, from, width)
  {
    var field := record[from..from + width];
    forall k | from <= k < from + width
      ensures record[k] == ' '
    {
      assert record[k] == field[k - from];
    }
  }

  lemma DataOffsets()
    ensures
      && Width(DATA_WIDTHS[..0]) == 0 && Width(DATA_WIDTHS[..1]) == 1 && Width(DATA_WIDTHS[..2]) == 5
      && Width(DATA_WIDTHS[..3]) == 20 && Width(DATA_WIDTHS[..4]) == 23 && Width(DATA_WIDTHS[..5]) == 38
      && Width(DATA_WIDTHS[..6]) == 42 && Width(DATA_WIDTHS[..7]) == 43 && Width(DATA_WIDTHS[..8]) == 50
      && Width(DATA_WIDTHS[..9]) == 80 && Width(DATA_WIDTHS[..10]) == 90 && Width(DATA_WIDTHS[..11]) == 91
      && Width(DATA_WIDTHS[..12]) == 101 && Width(DATA_WIDTHS[..13]) == 111 && Width(DATA_WIDTHS[..14]) == 112
      && Width(DATA_WIDTHS[..15]) == 113
  {
    DataLayout();
    WidthNext(DATA_WIDTHS, 0);
    WidthNext(DATA_WIDTHS, 1);
    WidthNext(DATA_WIDTHS, 2);
    WidthNext(DATA_WIDTHS, 3);
    WidthNext(DATA_WIDTHS, 4);
    WidthNext(DATA_WIDTHS, 5);
    WidthNext(DATA_WIDTHS, 6);
    WidthNext(DATA_WIDTHS, 7);
    WidthNext(DATA_WIDTHS, 8);
    WidthNext(DATA_WIDTHS, 9);
    WidthNext(DATA_WIDTHS, 10);
    WidthNext(DATA_WIDTHS, 11);
    WidthNext(DATA_WIDTHS, 12);
    WidthNext(DATA_WIDTHS, 13);
    WidthNext(DATA_WIDTHS, 14);
  }

  /** A field of a data record, in its place. */
  lemma DataFieldAt(t: Text, l: TransferLine, k: nat)
    requires DataRecord(t, l).Ok? && k < 16
    ensures var record, from := DataRecord(t, l).value, Width(DATA_WIDTHS[..k]);
      && |record| == RECORD_LENGTH && from + DATA_WIDTHS[k] <= RECORD_LENGTH
      && |DataFields(t, l, Transferred(l))| == 16
      && DataFields(t, l, Transferred(l))[k] == Ok(record[from..from + DATA_WIDTHS[k]])
  {
    hide Width, NumberField, TextField, AccountTypeField, AmountField, Join;
    DataFits(t, l, Transferred(l));
    DataLayout();
    FieldsReadBack(DataFields(t, l, Transferred(l)), DATA_WIDTHS, k);
  }

  /** Who is paid: bank, branch, account and recipient of a data record are those of the line, each in its place. */
  lemma DataRecordNamesTheAccount(t: Text, l: TransferLine)
    requires DataRecord(t, l).Ok?
    ensures
      var record := DataRecord(t, l).value;
      && |record| == 120 && record[0] == '2'
      && NumberAt(record, 1, 4, l.bankCode) && TextAt(t, record, 5, 15, l.bankName)
      && NumberAt(record, 20, 3, l.branchCode) && TextAt(t, record, 23, 15, l.branchName)
      && l.accountType in ["1", "2", "4"] && record[42..43] == l.accountType
      && NumberAt(record, 43, 7, l.accountNumber) && TextAt(t, record, 50, 30, l.recipientName)
  {
    hide Width, NumberField, TextField, AmountField, NumberAt, TextAt, Join;
    var record := DataRecord(t, l).value;
    DataOffsets();
    DataFieldAt(t, l, 0);
    assert record[0..1][0] == record[0];
    DataFieldAt(t, l, 1);
    NumberCut(t, record, 1, 4, l.bankCode, "bank_code");
    DataFieldAt(t, l, 2);
    TextCut(t, record, 5, 15, l.bankName);
    DataFieldAt(t, l, 3);
    NumberCut(t, record, 20, 3, l.branchCode, "branch_code");
    DataFieldAt(t, l, 4);
    TextCut(t, record, 23, 15, l.branchName);
    DataFieldAt(t, l, 6);
    DataFieldAt(t, l, 7);
    NumberCut(t, record, 43, 7, l.accountNumber, "account_number");
    DataFieldAt(t, l, 8);
    TextCut(t, record, 50, 30, l.recipientName);
  }

  /** The rest of a data record: what kind of transfer it is, the customer, and blanks. */
  lemma DataRecordRest(t: Text, l: TransferLine)
    requires DataRecord(t, l).Ok?
    ensures
      var record := DataRecord(t, l).value;
      && |record| == 120 && record[90] == '0' && record[111] == '7'
      && TextAt(t, record, 91, 10, l.customerCode)
      && BlankAt(record, 38, 4) && BlankAt(record, 101, 10) && record[112] == ' ' && BlankAt(record, 113, 7)
  {
    hide Width, NumberField, TextField, AmountField, TextAt, BlankAt, Join;
    var record := DataRecord(t, l).value;
    DataOffsets();
    DataFieldAt(t, l, 5);
    BlankCut(record, 38, 4);
    DataFieldAt(t, l, 10);
    assert record[90..91][0] == record[90];
    DataFieldAt(t, l, 11);
    TextCut(t, record, 91, 10, l.customerCode);
    DataFieldAt(t, l, 12);
    BlankCut(record, 101, 10);
    DataFieldAt(t, l, 13);
    assert record[111..112][0] == record[111];
    DataFieldAt(t, l, 14);
    assert record[112..113][0] == record[112];
    DataFieldAt(t, l, 15);
    BlankCut(record, 113, 7);
  }

  lemma HeaderOffsets()
    ensures
      && Width(HEADER_WIDTHS[..0]) == 0 && Width(HEADER_WIDTHS[..1]) == 1 && Width(HEADER_WIDTHS[..2]) == 3
      && Width(HEADER_WIDTHS[..3]) == 4 && Width(HEADER_WIDTHS[..4]) == 14 && Width(HEADER_WIDTHS[..5]) == 54
      && Width(HEADER_WIDTHS[..6]) == 58 && Width(HEADER_WIDTHS[..7]) == 62 && Width(HEADER_WIDTHS[..8]) == 77
      && Width(HEADER_WIDTHS[..9]) == 80 && Width(HEADER_WIDTHS[..10]) == 95 && Width(HEADER_WIDTHS[..11]) == 96
      && Width(HEADER_WIDTHS[..12]) == 103
  {
    WidthNext(HEADER_WIDTHS, 0);
    WidthNext(HEADER_WIDTHS, 1);
    WidthNext(HEADER_WIDTHS, 2);
    WidthNext(HEADER_WIDTHS, 3);
    WidthNext(HEADER_WIDTHS, 4);
    WidthNext(HEADER_WIDTHS, 5);
    WidthNext(HEADER_WIDTHS, 6);
    WidthNext(HEADER_WIDTHS, 7);
    WidthNext(HEADER_WIDTHS, 8);
    WidthNext(HEADER_WIDTHS, 9);
    WidthNext(HEADER_WIDTHS, 10);
    WidthNext(HEADER_WIDTHS, 11);
  }

  lemma HeaderFieldAt(t: Text, r: Request, k: nat)
    requires ValidDay(r) && Join(HeaderFields(t, r)).Ok? && k < 13
    ensures var record, from := Join(HeaderFields(t, r)).value, Width(HEADER_WIDTHS[..k]);
      && |record| == RECORD_LENGTH && from + HEADER_WIDTHS[k] <= RECORD_LENGTH
      && |HeaderFields(t, r)| == 13
      && HeaderFields(t, r)[k] == Ok(record[from..from + HEADER_WIDTHS[k]])
  {
    hide Width, NumberField, TextField, AccountTypeField, TwoDigits, Join;
    HeaderFits(t, r);
    HeaderLayout();
    FieldsReadBack(HeaderFields(t, r), HEADER_WIDTHS, k);
  }

  /** Who pays and when: the header names the consignor, the day and the account of the request, each in its place. */
  lemma HeaderNamesTheConsignor(t: Text, r: Request)
    requires ValidDay(r) && Join(HeaderFields(t, r)).Ok?
    ensures
      var record := Join(HeaderFields(t, r)).value;
      && |record| == 120 && record[0..1] == "1" && record[1..3] == "21" && record[3..4] == "0"
      && NumberAt(record, 4, 10, r.consignorCode) && TextAt(t, record, 14, 40, r.consignorName)
      && NumberAt(record, 58, 4, r.bankCode) && TextAt(t, record, 62, 15, r.bankName)
      && NumberAt(record, 77, 3, r.branchCode) && TextAt(t, record, 80, 15, r.branchName)
      && r.accountType in ["1", "2", "4"] && record[95..96] == r.accountType
      && NumberAt(record, 96, 7, r.accountNumber) && BlankAt(record, 103, 17)
  {
    hide Width, NumberField, TextField, NumberAt, TextAt, BlankAt, Join, TwoDigits;
    var record := Join(HeaderFields(t, r)).value;
    HeaderOffsets();
    HeaderFieldAt(t, r, 0);
    HeaderFieldAt(t, r, 1);
    HeaderFieldAt(t, r, 2);
    HeaderFieldAt(t, r, 3);
    NumberCut(t, record, 4, 10, r.consignorCode, "consignor_code");
    HeaderFieldAt(t, r, 4);
    TextCut(t, record, 14, 40, r.consignorName);
    HeaderFieldAt(t, r, 6);
    NumberCut(t, record, 58, 4, r.bankCode, "bank_code");
    HeaderFieldAt(t, r, 7);
    TextCut(t, record, 62, 15, r.bankName);
    HeaderFieldAt(t, r, 8);
    NumberCut(t, record, 77, 3, r.branchCode, "branch_code");
    HeaderFieldAt(t, r, 9);
    TextCut(t, record, 80, 15, r.branchName);
    HeaderFieldAt(t, r, 10);
    HeaderFieldAt(t, r, 11);
    NumberCut(t, record, 96, 7, r.accountNumber, "account_number");
    HeaderFieldAt(t, r, 12);
    BlankCut(record, 103, 17);
  }

  /** The day of the transfer is month and day, two digits each. */
  lemma HeaderNamesTheDay(t: Text, r: Request)
    requires ValidDay(r) && Join(HeaderFields(t, r)).Ok?
    ensures
      var record := Join(HeaderFields(t, r)).value;
      && |record| == 120 && AllDigits(record[54..56]) && AllDigits(record[56..58])
      && Value(record[54..56]) == r.month && Value(record[56..58]) == r.day
  {
    hide Width, NumberField, TextField, Join, TwoDigits, Value, AllDigits;
    var record := Join(HeaderFields(t, r)).value;
    HeaderOffsets();
    HeaderFieldAt(t, r, 5);
    TwoDigitsRead(r.month);
    TwoDigitsRead(r.day);
    DayCut(record, TwoDigits(r.month), TwoDigits(r.day));
  }

  lemma DayCut(record: string, month: string, day: string)
    requires |record| == 120 && record[54..58] == month + day && |month| == |day| == 2
    ensures record[54..56] == month && record[56..58] == day
  {
    assert record[54..58][..2] == record[54..56] && record[54..58][2..] == record[56..58];
  }

  lemma TwoDigitsRead(n: nat)
    requires n < 100
    ensures |TwoDigits(n)| == 2 && AllDigits(TwoDigits(n)) && Value(TwoDigits(n)) == n
  {
    assert Pow10(2) == 10 * Pow10(1) && Pow10(1) == 10 * Pow10(0);
    DecimalLength(n, 2);
    ReadBack(n);
    PadReadBack(ToDecimal(n), 2);
  }

  /** What the amounts of a line must be, and how each misfit is refused. */
  lemma LineIsRefused(t: Text, l: TransferLine)
    ensures LineProblem(l).None? <==>
      && l.amount > 0.0 && l.transferFee >= 0.0 && (l.feeBorneByRecipient ==> l.transferFee < l.amount)
    ensures l.amount <= 0.0 ==> DataRecord(t, l) == Err(AmountNotPositive)
    ensures l.amount > 0.0 && l.transferFee < 0.0 ==> DataRecord(t, l) == Err(NegativeFee)
    ensures l.amount > 0.0 && l.transferFee >= 0.0 && l.feeBorneByRecipient && l.transferFee >= l.amount ==>
      DataRecord(t, l) == Err(FeeExceedsAmount)
    ensures DataRecord(t, l).Ok? ==>
      && l.amount > 0.0 && l.transferFee >= 0.0 && (l.feeBorneByRecipient ==> l.transferFee < l.amount)
      && Transferred(l) == if l.feeBorneByRecipient then l.amount - l.transferFee else l.amount
  {
  }

  /** The reported lines are those of the request. */
  lemma {:induction false} ResultsName(t: Text, lines: seq<TransferLine>, i: nat)
    requires DataRecords(t, lines).Ok? && i < |lines|
    ensures |LineResults(t, lines)| == |lines|
    ensures ResultNames(t, lines[i], LineResults(t, lines)[i])
  {
    hide ResultNames, Charset, DataRecord;
    var init, last := lines[..|lines| - 1], lines[|lines| - 1];
    if i < |init| {
      ResultsName(t, init, i);
    } else {
      if init != [] {
        ResultsName(t, init, 0);
      }
      LastResultNames(t, lines);
    }
  }

  lemma LastResultNames(t: Text, lines: seq<TransferLine>)
    requires DataRecords(t, lines).Ok? && lines != []
    ensures |LineResults(t, lines)| > 0
    ensures ResultNames(t, lines[|lines| - 1], LineResults(t, lines)[|LineResults(t, lines)| - 1])
  {
    DataFieldAt(t, lines[|lines| - 1], 8);
  }

  ghost predicate ResultNames(t: Text, line: TransferLine, l: LineResult) {
    && Charset(t, line.recipientName) == Ok(l.recipientName)
    && l.payable == line.amount && l.transferFee == line.transferFee
    && l.feeBorneByRecipient == line.feeBorneByRecipient
    && l.transferAmount == if line.feeBorneByRecipient then line.amount - line.transferFee else line.amount
  }

  /** Where the records of an accepted file are. */
  lemma RecordPlaces(t: Text, r: Request, out: Transfer)
    requires IsTransfer(t, r, out)
    ensures |out.records| == |r.lines| + 3 && |DataRecords(t, r.lines).value| == |r.lines|
    ensures out.records[0] == Join(HeaderFields(t, r)).value
    ensures forall i :: 0 <= i < |r.lines| ==> out.records[i + 1] == DataRecords(t, r.lines).value[i]
    ensures Join(TrailerFields(|r.lines|, out.totalAmount)).Ok?
    ensures out.records[|r.lines| + 1] == Join(TrailerFields(|r.lines|, out.totalAmount)).value
    ensures out.records[|r.lines| + 2] == EndRecord()
    ensures out.records[|r.lines| + 2][0] == '9' && BlankAt(out.records[|r.lines| + 2], 1, 119)
    ensures |out.records[|r.lines| + 2]| == 120
  {
    TotalIsPositive(t, r.lines);
    TrailerError(|r.lines|, out.totalAmount);
  }

  /** Every record is 120 characters of one byte each. */
  lemma RecordsAreFixed(t: Text, r: Request, out: Transfer, i: nat)
    requires ValidDay(r) && IsTransfer(t, r, out) && i < |out.records|
    ensures |out.records[i]| == RECORD_LENGTH && forall k :: 0 <= k < RECORD_LENGTH ==> OneByte(out.records[i][k])
  {
    RecordPlaces(t, r, out);
    if i == 0 {
      HeaderLength(t, r);
    } else if i <= |r.lines| {
      DataRecordAt(t, r.lines, i - 1);
      DataRecordReadsBack(t, r.lines[i - 1]);
    } else if i == |r.lines| + 1 {
      TrailerReadsBack(|r.lines|, out.totalAmount);
    }
    BytesPerCharacter(out.records[i]);
  }

  lemma {:induction false} BytesPerCharacter(s: string)
    ensures ByteLength(s) >= |s|
    ensures ByteLength(s) == |s| <==> forall k :: 0 <= k < |s| ==> OneByte(s[k])
  {
    if s != "" {
      var init := s[..|s| - 1];
      BytesPerCharacter(init);
      assert forall k :: 0 <= k < |init| ==> init[k] == s[k];
    }
  }

  /** The amounts read by offset from the detail records. */
  function ReadAmount(record: string): real {
    if |record| == RECORD_LENGTH && AllDigits(record[80..90]) then Value(record[80..90]) as real else -1.0
  }

  /**
    * Reading the file by offset gives everything back: each detail its transfer amount, the trailer the number of
    * details and the sum of their amounts; and what was payable is what is transferred plus the fees held back.
    */
  lemma FileReadsBack(t: Text, r: Request, out: Transfer)
    requires ValidDay(r) && IsTransfer(t, r, out)
    ensures |out.records| == |r.lines| + 3
    ensures forall i :: 0 <= i < |r.lines| ==> ReadAmount(out.records[i + 1]) == Transferred(r.lines[i])
    ensures
      var details, trailer := out.records[1..|r.lines| + 1], out.records[|r.lines| + 1];
      && |trailer| == RECORD_LENGTH && AllDigits(trailer[1..7]) && AllDigits(trailer[7..19])
      && Value(trailer[1..7]) == |details|
      && Value(trailer[7..19]) as real == Total(details, ReadAmount) == out.totalAmount
    ensures Total(r.lines, PayableOf) == out.totalAmount + out.totalFeeDeducted
  {
    RecordPlaces(t, r, out);
    forall i | 0 <= i < |r.lines|
      ensures ReadAmount(out.records[i + 1]) == Transferred(r.lines[i])
    {
      DataRecordAt(t, r.lines, i);
      DataRecordReadsBack(t, r.lines[i]);
    }
    TrailerReadsBack(|r.lines|, out.totalAmount);
    SameTotals(out.records[1..|r.lines| + 1], r.lines);
    PayableIsSplit(r.lines);
  }

  lemma {:induction false} SameTotals(records: seq<string>, lines: seq<TransferLine>)
    requires |records| == |lines| && forall i :: 0 <= i < |lines| ==> ReadAmount(records[i]) == Transferred(lines[i])
    ensures Total(records, ReadAmount) == Total(lines, Transferred)
  {
    if lines != [] {
      SameTotals(records[..|records| - 1], lines[..|lines| - 1]);
    }
  }

  lemma {:induction false} PayableIsSplit(lines: seq<TransferLine>)
    ensures Total(lines, PayableOf) == Total(lines, Transferred) + Total(lines, FeeOf)
  {
    if lines != [] {
      PayableIsSplit(lines[..|lines| - 1]);
    }
  }

  // ----- Encoding, and splitting the file into lines again -----

  predicate Encodable(s: string) {
    forall i :: 0 <= i < |s| ==> OneByte(s[i]) && s[i] != '\r'
  }

  function ByteOf(c: char): int
    requires OneByte(c)
  {
    if c as int < 128 then c as int else c as int - 0xFEC0
  }

  function CharOf(b: int): char {
    if 0 <= b < 128 then b as char else if 0xA1 <= b <= 0xDF then (b + 0xFEC0) as char else ' '
  }

  function Bytes(s: string): (b: seq<int>)
    requires Encodable(s)
    ensures |b| == |s| && forall i :: 0 <= i < |s| ==> b[i] == ByteOf(s[i])
  {
    seq(|s|, i requires 0 <= i < |s| => ByteOf(s[i]))
  }

  function Decoded(b: seq<int>): string { seq(|b|, i requires 0 <= i < |b| => CharOf(b[i])) }

  const CRLF := [13, 10]

  predicate AllEncodable(records: seq<string>) {
    forall i :: 0 <= i < |records| ==> Encodable(records[i])
  }

  function Joined(records: seq<string>): seq<int>
    requires AllEncodable(records)
  {
    if records == [] then []
    else if |records| == 1 then Bytes(records[0])
    else Bytes(records[0]) + CRLF + Joined(records[1..])
  }

  function Encode(records: seq<string>): seq<int>
    requires AllEncodable(records)
  {
    Joined(records) + CRLF
  }

  /** The lines of a file, each ended by CRLF; `line` is what the current one holds so far. */
  function Split(bytes: seq<int>, line: seq<int>): seq<seq<int>> {
    if bytes == [] then (if line == [] then [] else [line])
    else if |bytes| >= 2 && bytes[0] == 13 && bytes[1] == 10 then [line] + Split(bytes[2..], [])
    else Split(bytes[1..], line + [bytes[0]])
  }

  function DecodedLines(lines: seq<seq<int>>): seq<string> {
    if lines == [] then [] else [Decoded(lines[0])] + DecodedLines(lines[1..])
  }

  lemma {:induction false} SplitLine(text: seq<int>, rest: seq<int>, line: seq<int>)
    requires forall i :: 0 <= i < |text| ==> text[i] != 13
    ensures Split(text + (CRLF + rest), line) == [line + text] + Split(rest, [])
    decreases |text|
  {
    var bytes := text + (CRLF + rest);
    if text == [] {
      assert bytes[0] == 13 && bytes[1] == 10 && bytes[2..] == rest;
      assert line + text == line;
    } else {
      assert bytes[0] == text[0] && bytes[1..] == text[1..] + (CRLF + rest);
      SplitLine(text[1..], rest, line + [text[0]]);
      assert line + [text[0]] + text[1..] == line + text;
    }
  }

  lemma DecodesBack(s: string)
    requires Encodable(s)
    ensures Decoded(Bytes(s)) == s && forall i :: 0 <= i < |s| ==> Bytes(s)[i] != 13
  {
  }

  lemma {:induction false} SplitUndoesJoin(records: seq<string>)
    requires AllEncodable(records) && records != []
    ensures DecodedLines(Split(Encode(records), [])) == records
  {
    var first, rest := records[0], records[1..];
    DecodesBack(first);
    if rest == [] {
      assert Encode(records) == Bytes(first) + (CRLF + []);
      SplitLine(Bytes(first), [], []);
      OneLineMore(Bytes(first), []);
      assert records == [first];
    } else {
      assert Encode(records) == Bytes(first) + (CRLF + Encode(rest));
      SplitLine(Bytes(first), Encode(rest), []);
      SplitUndoesJoin(rest);
      OneLineMore(Bytes(first), Split(Encode(rest), []));
      assert records == [first] + rest;
    }
  }

  lemma OneLineMore(line: seq<int>, lines: seq<seq<int>>)
    ensures DecodedLines([[] + line] + lines) == [Decoded(line)] + DecodedLines(lines)
  {
    assert [] + line == line;
    assert ([line] + lines)[1..] == lines;
  }

  // ----- No field holds a carriage return -----

  ghost predicate Clean(f: Field) {
    f.Ok? ==> forall c :: c in f.value && OneByte(c) ==> c != '\r'
  }

  lemma NumberIsClean(t: Text, s: string, width: nat, name: string)
    ensures Clean(NumberField(t, s, width, name))
  {
    var field, digits := NumberField(t, s, width, name), Strip(t, s);
    if field.Ok? {
      forall c | c in field.value && OneByte(c)
        ensures c != '\r'
      {
        PadMembers(digits, width, c);
        if c in digits {
          var i :| 0 <= i < |digits| && digits[i] == c;
          assert IsAnyDigit(t, digits[i]);
        }
      }
    }
  }

  lemma TextIsClean(t: Text, s: string, width: nat)
    ensures Clean(TextField(t, s, width))
  {
    var text := Charset(t, s);
    if text.Ok? {
      forall c | c in Fill(text.value, width)
        ensures c != '\r'
      {
        assert c in text.value || c == ' ';
      }
    }
  }

  lemma DigitsAreClean(s: string)
    requires AllDigits(s)
    ensures Clean(Ok(s))
  {
  }

  lemma AmountIsClean(value: Money, width: nat)
    requires value >= 0.0
    ensures Clean(AmountField(value, width))
  {
    if AmountField(value, width).Ok? {
      DigitsAreClean(AmountField(value, width).value);
    }
  }

  lemma HeaderIsClean(t: Text, r: Request)
    ensures forall i {:trigger HeaderFields(t, r)[i]} :: 0 <= i < 13 ==> Clean(HeaderFields(t, r)[i])
  {
    NumberIsClean(t, r.consignorCode, 10, "consignor_code");
    TextIsClean(t, r.consignorName, 40);
    DigitsAreClean(TwoDigits(r.month) + TwoDigits(r.day));
    NumberIsClean(t, r.bankCode, 4, "bank_code");
    TextIsClean(t, r.bankName, 15);
    NumberIsClean(t, r.branchCode, 3, "branch_code");
    TextIsClean(t, r.branchName, 15);
    NumberIsClean(t, r.accountNumber, 7, "account_number");
  }

  lemma DataIsClean(t: Text, l: TransferLine, amount: Money)
    requires amount >= 0.0
    ensures forall i {:trigger DataFields(t, l, amount)[i]} :: 0 <= i < 16 ==> Clean(DataFields(t, l, amount)[i])
  {
    NumberIsClean(t, l.bankCode, 4, "bank_code");
    TextIsClean(t, l.bankName, 15);
    NumberIsClean(t, l.branchCode, 3, "branch_code");
    TextIsClean(t, l.branchName, 15);
    NumberIsClean(t, l.accountNumber, 7, "account_number");
    TextIsClean(t, l.recipientName, 30);
    AmountIsClean(amount, 10);
    TextIsClean(t, l.customerCode, 10);
  }

  lemma TrailerIsClean(count: nat, total: Money)
    requires total >= 0.0
    ensures forall i {:trigger TrailerFields(count, total)[i]} :: 0 <= i < 4 ==> Clean(TrailerFields(count, total)[i])
  {
    DigitsAreClean(PadLeft(ToDecimal(count), 6));
    AmountIsClean(total, 12);
  }

  lemma JoinedIsClean(fields: seq<Field>)
    requires forall i {:trigger fields[i]} :: 0 <= i < |fields| ==> Clean(fields[i])
    ensures Clean(Join(fields))
  {
    if Join(fields).Ok? {
      forall c | c in Join(fields).value && OneByte(c)
        ensures c != '\r'
      {
        JoinKeeps(fields, c);
      }
    }
  }

  lemma HeaderRecordIsClean(t: Text, r: Request)
    ensures Clean(Join(HeaderFields(t, r)))
  {
    HeaderIsClean(t, r);
    JoinedIsClean(HeaderFields(t, r));
  }

  lemma DataRecordIsClean(t: Text, l: TransferLine)
    ensures Clean(DataRecord(t, l))
  {
    if LineProblem(l).None? {
      DataIsClean(t, l, Transferred(l));
      JoinedIsClean(DataFields(t, l, Transferred(l)));
    }
  }

  lemma TrailerRecordIsClean(count: nat, total: Money)
    requires total >= 0.0
    ensures Clean(Join(TrailerFields(count, total)))
  {
    TrailerIsClean(count, total);
    JoinedIsClean(TrailerFields(count, total));
  }

  lemma RecordIsClean(t: Text, r: Request, out: Transfer, i: nat)
    requires IsTransfer(t, r, out) && i < |out.records|
    ensures Clean(Ok(out.records[i]))
  {
    hide HeaderFields, DataRecord, TrailerFields;
    RecordPlaces(t, r, out);
    if i == 0 {
      HeaderRecordIsClean(t, r);
    } else if i <= |r.lines| {
      DataRecordAt(t, r.lines, i - 1);
      DataRecordIsClean(t, r.lines[i - 1]);
    } else if i == |r.lines| + 1 {
      TrailerRecordIsClean(|r.lines|, out.totalAmount);
    } else {
      assert forall c :: c in EndRecord() ==> c == '9' || c == ' ';
    }
  }

  lemma RecordsAreEncodable(t: Text, r: Request, out: Transfer)
    requires ValidDay(r) && IsTransfer(t, r, out)
    ensures AllEncodable(out.records)
  {
    forall i | 0 <= i < |out.records|
      ensures Encodable(out.records[i])
    {
      RecordsAreFixed(t, r, out, i);
      RecordIsClean(t, r, out, i);
      assert forall k :: 0 <= k < |out.records[i]| ==> out.records[i][k] in out.records[i];
    }
  }

  /** Splitting the encoded file at its line ends gives the records back. */
  lemma EncodedFileSplitsBack(t: Text, r: Request, out: Transfer)
    requires ValidDay(r) && IsTransfer(t, r, out)
    ensures AllEncodable(out.records) && DecodedLines(Split(Encode(out.records), [])) == out.records
  {
    RecordsAreEncodable(t, r, out);
    SplitUndoesJoin(out.records);
  }
}
