/**
 * The receipt-line parser: recognised receipt text in, priced rows out.
 * The source's regular expressions are written out here as scanners over the
 * line, each following the way JavaScript's backtracking matcher settles on
 * its first match.
 */
module Receipt {
  import opened Options
  import opened Strings
  import opened Money
  import opened Bills

  /** `MAX_PRICE`, 999999.99, in cents. */
  const MaxPriceCents: nat := 99999999

  /** `LABEL_UNREADABLE`, the label of a priced row whose text could not be read. */
  const Unreadable: string := "НЕ СЕ ЧЕТЕ"

  // ----- RECEIPT_SKIP_PATTERNS -----

  /** `/^w$/i`. */
  predicate IsWord(t: string, w: string) {
    |t| == |w| && WordAt(t, 0, w)
  }

  /** `/^a\s+b$/i`, for a `b` that starts with a letter. */
  predicate IsTwoWords(t: string, a: string, b: string) {
    WordAt(t, 0, a) &&
    var j := Span(t, |a|, Space);
    j > |a| && |t| == j + |b| && WordAt(t, j, b)
  }

  /** `/^Пг\.#\d+\s+СУМА/i`: a register's footer code. */
  predicate IsFooterCode(t: string) {
    WordAt(t, 0, "Пг.#") &&
    var d := Span(t, 4, Digit);
    d > 4 &&
    var e := Span(t, d, Space);
    e > d && WordAt(t, e, "СУМА")
  }

  /** `/^\d+\s+артикул$/i`: an "N items" counter. */
  predicate IsItemCounter(t: string) {
    var d := Span(t, 0, Digit);
    d > 0 &&
    var e := Span(t, d, Space);
    e > d && |t| == e + |"артикул"| && WordAt(t, e, "артикул")
  }

  /** `isReceiptSkipLine`: the trimmed line matches one of the eight skip patterns. */
  predicate IsReceiptSkipLine(line: string) {
    MatchesSkipPattern(Trim(line))
  }

  /** One of the skip patterns matches the whole trimmed line `t` (or its start, or part of it). */
  predicate MatchesSkipPattern(t: string) {
    IsTwoWords(t, "ОБЩА", "СУМА") || IsWord(t, "СУМА") || IsTwoWords(t, "В", "БРОЙ")
    || WordAt(t, 0, "БОН:") || IsWord(t, "TOTAN") || Contains(t, "#сума")
    || IsFooterCode(t) || IsItemCounter(t)
  }

  // ----- The price pattern /([\d\s]+)[.,](\d{2})\s*(?:€|eur|лв|лв\.|bgn)?/gi -----

  /** One match of the price pattern: where it starts and ends, and its two groups. */
  datatype PriceMatch = PriceMatch(start: nat, end: nat, intPart: string, decimals: string)

  /** Group 1 is digits and white space, group 2 exactly two digits. */
  predicate WellFormed(m: PriceMatch) {
    (forall k :: 0 <= k < |m.intPart| ==> InClass(m.intPart[k], DigitOrSpace))
    && |m.decimals| == 2 && AllDigits(m.decimals)
  }

  /** How much of the optional currency word matches at `i`: the first alternative that fits, so `лв.` never does. */
  function CurrencyLength(s: string, i: nat): (n: nat)
    ensures i + n <= |s| || n == 0
  {
    if WordAt(s, i, "€") then 1
    else if WordAt(s, i, "eur") then 3
    else if WordAt(s, i, "лв") then 2
    else if WordAt(s, i, "лв.") then 3
    else if WordAt(s, i, "bgn") then 3
    else 0
  }

  /**
   * The match of the price pattern that starts at `p`, if any. Group 1 takes
   * the whole run of digits and white space (giving any of it back cannot make
   * `[.,]` match), then come the separator, two digits, all the white space
   * after them and the currency word when one is there.
   */
  function MatchAt(s: string, p: nat): (r: Option<PriceMatch>)
    requires p <= |s|
    ensures r.Some? ==> r.value.start == p < r.value.end <= |s| && WellFormed(r.value)
  {
    if p < |s| && InClass(s[p], DigitOrSpace) then
      var q := Span(s, p, DigitOrSpace);
      if q + 3 <= |s| && (s[q] == '.' || s[q] == ',') && IsDigit(s[q + 1]) && IsDigit(s[q + 2]) then
        var e := Span(s, q + 3, Space);
        Some(PriceMatch(p, e + CurrencyLength(s, e), s[p..q], s[q + 1..q + 3]))
      else None
    else None
  }

  /** `regex.exec(s)` with `lastIndex == from`: the leftmost match that starts at or after `from`. */
  function ExecFrom(s: string, from: nat): (r: Option<PriceMatch>)
    requires from <= |s|
    ensures r.Some? ==> from <= r.value.start < r.value.end <= |s|
    ensures r.Some? ==> MatchAt(s, r.value.start) == r
    ensures r.Some? ==> forall p :: from <= p < r.value.start ==> MatchAt(s, p).None?
    ensures r.None? ==> forall p :: from <= p <= |s| ==> MatchAt(s, p).None?
    decreases |s| - from
  {
    if from == |s| then None
    else if MatchAt(s, from).Some? then MatchAt(s, from)
    else ExecFrom(s, from + 1)
  }

  /** Every match `exec` returns when called again and again from `from`, each search starting where the last match ended. */
  function MatchesFrom(s: string, from: nat): (ms: seq<PriceMatch>)
    requires from <= |s|
    ensures forall k :: 0 <= k < |ms| ==> from <= ms[k].start < ms[k].end <= |s|
    ensures forall k :: 0 <= k < |ms| ==> MatchAt(s, ms[k].start) == Some(ms[k])
    ensures forall k :: 0 <= k < |ms| - 1 ==> ms[k].end <= ms[k + 1].start
    decreases |s| - from
  {
    match ExecFrom(s, from)
    case None => []
    case Some(m) =>
      var rest := MatchesFrom(s, m.end);
      PrependMatch(s, from, m, rest);
      [m] + rest
  }

  /** A match found from `from`, put before the matches found after it, keeps them in order and within the line. */
  lemma PrependMatch(s: string, from: nat, m: PriceMatch, rest: seq<PriceMatch>)
    requires from <= m.start < m.end <= |s| && MatchAt(s, m.start) == Some(m)
    requires forall k :: 0 <= k < |rest| ==> m.end <= rest[k].start < rest[k].end <= |s|
    requires forall k :: 0 <= k < |rest| ==> MatchAt(s, rest[k].start) == Some(rest[k])
    requires forall k :: 0 <= k < |rest| - 1 ==> rest[k].end <= rest[k + 1].start
    ensures var ms := [m] + rest;
      (forall k :: 0 <= k < |ms| ==> from <= ms[k].start < ms[k].end <= |s|)
      && (forall k :: 0 <= k < |ms| ==> MatchAt(s, ms[k].start) == Some(ms[k]))
      && (forall k :: 0 <= k < |ms| - 1 ==> ms[k].end <= ms[k + 1].start)
  {
    PrependBounds(s, from, m, rest);
    PrependFound(s, m, rest);
    PrependOrdered(m, rest);
  }

  lemma PrependBounds(s: string, from: nat, m: PriceMatch, rest: seq<PriceMatch>)
    requires from <= m.start < m.end <= |s|
    requires forall k :: 0 <= k < |rest| ==> m.end <= rest[k].start < rest[k].end <= |s|
    ensures var ms := [m] + rest; forall k :: 0 <= k < |ms| ==> from <= ms[k].start < ms[k].end <= |s|
  {
    var ms := [m] + rest;
    forall k | 0 < k < |ms| ensures from <= ms[k].start < ms[k].end <= |s| {
      assert ms[k] == rest[k - 1];
    }
  }

  lemma PrependFound(s: string, m: PriceMatch, rest: seq<PriceMatch>)
    requires m.start <= |s| && MatchAt(s, m.start) == Some(m)
    requires forall k :: 0 <= k < |rest| ==> rest[k].start <= |s| && MatchAt(s, rest[k].start) == Some(rest[k])
    ensures var ms := [m] + rest; forall k :: 0 <= k < |ms| ==> ms[k].start <= |s| && MatchAt(s, ms[k].start) == Some(ms[k])
  {
    var ms := [m] + rest;
    forall k | 0 < k < |ms| ensures ms[k].start <= |s| && MatchAt(s, ms[k].start) == Some(ms[k]) {
      assert ms[k] == rest[k - 1];
    }
  }

  lemma PrependOrdered(m: PriceMatch, rest: seq<PriceMatch>)
    requires forall k :: 0 <= k < |rest| ==> m.end <= rest[k].start
    requires forall k :: 0 <= k < |rest| - 1 ==> rest[k].end <= rest[k + 1].start
    ensures var ms := [m] + rest; forall k :: 0 <= k < |ms| - 1 ==> ms[k].end <= ms[k + 1].start
  {
    var ms := [m] + rest;
    forall k | 0 <= k < |ms| - 1 ensures ms[k].end <= ms[k + 1].start {
      assert ms[k + 1] == rest[k];
      if k > 0 {
        assert ms[k] == rest[k - 1];
      }
    }
  }

  /** What `findLastPriceOnLine` returns: the last of those matches, or none. */
  function LastPriceMatch(s: string): (r: Option<PriceMatch>)
    ensures r.Some? ==> r.value.start < r.value.end <= |s| && MatchAt(s, r.value.start) == r
  {
    var ms := MatchesFrom(s, 0);
    if ms == [] then None else Some(ms[|ms| - 1])
  }

  /** One more `exec` call moves its match from the matches still to come to the ones seen. */
  lemma MatchesStep(s: string, seen: seq<PriceMatch>, from: nat)
    requires from <= |s| && ExecFrom(s, from).Some?
    requires MatchesFrom(s, 0) == seen + MatchesFrom(s, from)
    ensures MatchesFrom(s, 0) == (seen + [ExecFrom(s, from).value]) + MatchesFrom(s, ExecFrom(s, from).value.end)
  {
    var m := ExecFrom(s, from).value;
    assert MatchesFrom(s, from) == [m] + MatchesFrom(s, m.end);
    assert seen + ([m] + MatchesFrom(s, m.end)) == (seen + [m]) + MatchesFrom(s, m.end);
  }

  /** `findLastPriceOnLine`: the `while (regex.exec(line))` loop that keeps the last match. */
  method FindLastPriceOnLine(line: string) returns (last: Option<PriceMatch>)
    ensures last == LastPriceMatch(line)
  {
    last := None;
    var lastIndex := 0;
    ghost var seen: seq<PriceMatch> := [];
    while true
      invariant lastIndex <= |line|
      invariant MatchesFrom(line, 0) == seen + MatchesFrom(line, lastIndex)
      invariant last == if seen == [] then None else Some(seen[|seen| - 1])
      decreases |line| - lastIndex
    {
      var m := ExecFrom(line, lastIndex);
      if m.None? {
        break;
      }
      MatchesStep(line, seen, lastIndex);
      seen := seen + [m.value];
      last := m;
      lastIndex := m.value.end;
    }
  }

  /** The price `parsePriceFromMatch` reads, in cents: group 1 without its white space, then the two decimals. */
  function PriceCents(m: PriceMatch): (c: nat)
    requires WellFormed(m)
    ensures c / 100 == DigitsValue(RemoveSpaces(m.intPart))
    ensures c % 100 == DigitsValue(m.decimals)
  {
    DigitsValueBound(m.decimals);
    assert Pow10(2) == 100;
    DigitsValue(RemoveSpaces(m.intPart)) * 100 + DigitsValue(m.decimals)
  }

  /** The text `parsePriceFromMatch` hands to `parseFloat`. */
  function PriceText(m: PriceMatch): string {
    RemoveSpaces(m.intPart) + "." + m.decimals
  }

  // ----- The quantity prefix /^(\d+)(?:[.,]\d+)?\s*[xX]\s+/ -----

  /** A match of the quantity prefix: the value of its digit group and the length of the whole match. */
  datatype QtyPrefix = QtyPrefix(count: nat, length: nat)

  /**
   * The quantity prefix at the start of the label `t`. The optional fraction is taken
   * whenever it is there, and the match then fails or succeeds with it:
   * dropping it cannot help, since `[xX]` cannot match the separator.
   */
  function QtyPrefixMatch(t: string): (r: Option<QtyPrefix>)
    ensures r.Some? ==> 0 < r.value.length <= |t|
  {
    var d := Span(t, 0, Digit);
    if d == 0 then None
    else
      var f := if d + 1 < |t| && (t[d] == '.' || t[d] == ',') && IsDigit(t[d + 1])
               then Span(t, d + 1, Digit) else d;
      var w := Span(t, f, Space);
      if w < |t| && (t[w] == 'x' || t[w] == 'X') then
        var e := Span(t, w + 1, Space);
        if e > w + 1 then
          assert AllDigits(t[..d]) by {
            forall k | 0 <= k < d ensures IsDigit(t[..d][k]) {
              assert InClass(t[k], Digit);
            }
          }
          Some(QtyPrefix(DigitsValue(t[..d]), e))
        else None
      else None
  }

  // ----- parseReceiptText -----

  /** One priced row as the loop of `parseReceiptText` pushes it: label, price in cents, quantity. */
  datatype Parsed = Parsed(title: string, cents: nat, qty: nat)

  /**
   * The row a line gives, if any: none for a skip line, a line without a price
   * or a price outside (0, 999999.99]; otherwise the trimmed text before the
   * price, without its quantity prefix, as label (or `Unreadable` when fewer
   * than two UTF-16 code units remain).
   */
  function ParseLine(line: string): (r: Option<Parsed>)
    ensures r.Some? ==> r.value.qty >= 1 && 0 < r.value.cents <= MaxPriceCents
    ensures r.Some? ==> r.value.title == Unreadable || Utf16Length(r.value.title) >= 2
  {
    if IsReceiptSkipLine(line) then None
    else match LastPriceMatch(line)
      case None => None
      case Some(m) => PricedRow(line, m)
  }

  /** The row a line makes of its last price match `m`: none when the price is 0 or above the limit. */
  function PricedRow(line: string, m: PriceMatch): (r: Option<Parsed>)
    requires m.start <= |line| && WellFormed(m)
    ensures r.Some? ==> r.value.qty >= 1 && 0 < r.value.cents <= MaxPriceCents
    ensures r.Some? ==> r.value.title == Unreadable || Utf16Length(r.value.title) >= 2
    ensures r.Some? <==> 0 < PriceCents(m) <= MaxPriceCents
  {
    var cents := PriceCents(m);
    if cents == 0 || cents > MaxPriceCents then None
    else
      var named := LabelOf(Trim(line[..m.start]));
      Some(Parsed(named.0, cents, named.1))
  }

  /**
   * The label and quantity of a row whose text before the price is `before`:
   * a quantity prefix is taken off and gives the quantity (at least 1), and a
   * label of fewer than two UTF-16 code units becomes `Unreadable`.
   */
  function LabelOf(before: string): (r: (string, nat))
    ensures r.1 >= 1
    ensures r.0 == Unreadable || Utf16Length(r.0) >= 2
  {
    var prefix := QtyPrefixMatch(before);
    var title := if prefix.Some? then Trim(before[prefix.value.length..]) else before;
    var qty: nat := if prefix.Some? && prefix.value.count > 1 then prefix.value.count else 1;
    (Readable(title), qty)
  }

  /** `if (!label || label.length < 2) label = LABEL_UNREADABLE`. */
  function Readable(title: string): (r: string)
    ensures r == Unreadable || (r == title && Utf16Length(r) >= 2)
    ensures Utf16Length(title) >= 2 ==> r == title
  {
    if Utf16Length(title) < 2 then Unreadable else title
  }

  /** The pieces of `ps` that are not blank, trimmed. */
  function TrimmedNonBlank(ps: seq<string>): (ls: seq<string>)
    ensures forall k :: 0 <= k < |ls| ==> ls[k] != "" && Trimmed(ls[k])
  {
    if ps == [] then []
    else
      var rest := TrimmedNonBlank(ps[1..]);
      var t := Trim(ps[0]);
      TrimIsTrimmed(ps[0]);
      if t == "" then rest else [t] + rest
  }

  /** Lines whose trims agree keep the same lines. */
  lemma {:induction false} TrimmedNonBlankSameTrims(ps: seq<string>, qs: seq<string>)
    requires |ps| == |qs| && forall k :: 0 <= k < |ps| ==> Trim(ps[k]) == Trim(qs[k])
    ensures TrimmedNonBlank(ps) == TrimmedNonBlank(qs)
  {
    if ps != [] {
      TrimmedNonBlankSameTrims(ps[1..], qs[1..]);
    }
  }

  /**
   * Splitting on line feeds alone keeps the same lines as splitting on
   * `\r?\n`: the carriage return left before a line feed is white space that
   * the trim removes.
   */
  lemma CrLfLines(text: string)
    ensures TrimmedNonBlank(SplitLines(text)) == TrimmedNonBlank(SplitCrLf(text))
  {
    var ps, qs := SplitLines(text), SplitCrLf(text);
    SplitLinesCrLf(text);
    forall k | 0 <= k < |ps|
      ensures Trim(ps[k]) == Trim(qs[k])
    {
      if ps[k] != qs[k] {
        TrimCr(qs[k]);
      }
    }
    TrimmedNonBlankSameTrims(ps, qs);
  }

  /**
   * `text.split(/\r?\n/).map(s => s.trim()).filter(Boolean)`: the non-blank
   * lines of the text, trimmed, in order.
   */
  function ReceiptLines(text: string): (ls: seq<string>)
    ensures ls == TrimmedNonBlank(SplitCrLf(text))
    ensures forall k :: 0 <= k < |ls| ==> ls[k] != "" && Trimmed(ls[k])
  {
    CrLfLines(text);
    TrimmedNonBlank(SplitLines(text))
  }

  /** The rows one line gives: its row, or none. */
  function LineRows(l: string): (rs: seq<Parsed>)
    ensures |rs| <= 1
  {
    match ParseLine(l)
    case Some(p) => [p]
    case None => []
  }

  /** The rows `rowsOf` gives for each of `lines`, one line after another. */
  function RowsOf(rowsOf: string -> seq<Parsed>, lines: seq<string>): seq<Parsed> {
    if lines == [] then [] else RowsOf(rowsOf, lines[..|lines| - 1]) + rowsOf(lines[|lines| - 1])
  }

  /** The rows the `for (const line of lines)` loop pushes, in line order. */
  function ParseLines(lines: seq<string>): seq<Parsed> {
    RowsOf(LineRows, lines)
  }

  /** The `for (const line of lines)` loop of `parseReceiptText`: the rows it pushes onto `parsed`. */
  method ParseRows(lines: seq<string>) returns (parsed: seq<Parsed>)
    ensures parsed == ParseLines(lines)
  {
    parsed := [];
    for i := 0 to |lines|
      invariant parsed == ParseLines(lines[..i])
    {
      var line := lines[i];
      assert lines[..i + 1][..i] == lines[..i];
      assert ParseLines(lines[..i + 1]) == ParseLines(lines[..i]) + LineRows(line);
      if IsReceiptSkipLine(line) {
        continue;
      }
      var m := FindLastPriceOnLine(line);
      if m.None? {
        continue;
      }
      var cents := PriceCents(m.value);
      if cents == 0 || cents > MaxPriceCents {
        continue;
      }
      var named := LabelOf(Trim(line[..m.value.start]));
      parsed := parsed + [Parsed(named.0, cents, named.1)];
    }
    assert lines[..|lines|] == lines;
  }

  /** The item `parsed.map` makes of row `p` with id `id`: the price written by `formatMoney`. */
  function ItemOf(p: Parsed, id: int): (it: Item)
    ensures it.id == id && it.title == p.title
    ensures it.price == CentsText(p.cents)
    ensures it.qty >= 1 && (p.qty >= 1 ==> it.qty == p.qty)
  {
    FormatCents(p.cents);
    Item(id, p.title, FormatMoney(p.cents as real / 100.0), if p.qty == 0 then 1 else p.qty)
  }

  /** `parsed.map(...)` with `id: nextItemId++`: consecutive ids from `firstId`. */
  function ParsedItems(ps: seq<Parsed>, firstId: int): (items: seq<Item>)
    ensures |items| == |ps|
    ensures forall k :: 0 <= k < |ps| ==> items[k] == ItemOf(ps[k], firstId + k)
  {
    if ps == [] then []
    else ParsedItems(ps[..|ps| - 1], firstId) + [ItemOf(ps[|ps| - 1], firstId + |ps| - 1)]
  }

  /** The new `state.items` after `parseReceiptText(text)`, when `nextItemId` was `firstId`. */
  function ReceiptItems(text: string, firstId: int): (items: seq<Item>)
    ensures |items| >= 1
    ensures forall k :: 0 <= k < |items| ==> items[k].id == firstId + k
    ensures items == [BlankItem(firstId)] <==> ParseLines(ReceiptLines(text)) == []
  {
    var ps := ParseLines(ReceiptLines(text));
    if |ps| > 0 then ParsedNotBlank(ps, firstId); ParsedItems(ps, firstId) else [BlankItem(firstId)]
  }

  /** The first parsed item has a price, so the items of some rows are never the blank row. */
  lemma ParsedNotBlank(ps: seq<Parsed>, firstId: int)
    requires |ps| > 0
    ensures ParsedItems(ps, firstId) != [BlankItem(firstId)]
  {
    var items := ParsedItems(ps, firstId);
    assert items[0].price == CentsText(ps[0].cents);
    assert |CentsText(ps[0].cents)| >= 3;
  }
}

/** What the parser's definitions imply: which match wins, which lines are dropped, and the shape of the rows. */
module ReceiptFacts {
  import opened Options
  import opened Strings
  import opened Money
  import opened Bills
  import opened Receipt

  lemma {:induction false} LastOfMatches(s: string, from: nat)
    requires from <= |s|
    ensures MatchesFrom(s, from) == [] <==> ExecFrom(s, from).None?
    ensures var ms := MatchesFrom(s, from);
      ms != [] ==> forall p :: ms[|ms| - 1].end <= p <= |s| ==> MatchAt(s, p).None?
    decreases |s| - from
  {
    match ExecFrom(s, from)
    case None =>
    case Some(m) =>
      LastOfMatches(s, m.end);
      var rest := MatchesFrom(s, m.end);
      assert MatchesFrom(s, from) == [m] + rest;
  }

  /**
   * The rightmost price wins: `findLastPriceOnLine` finds nothing exactly when
   * the price pattern matches nowhere on the line, and otherwise returns a
   * match of the pattern after whose end no match starts.
   */
  lemma LastPriceMatchIsLast(s: string)
    ensures LastPriceMatch(s).None? <==> forall p :: 0 <= p <= |s| ==> MatchAt(s, p).None?
    ensures LastPriceMatch(s).Some? ==>
      var m := LastPriceMatch(s).value;
      MatchAt(s, m.start) == Some(m) && forall p :: m.end <= p <= |s| ==> MatchAt(s, p).None?
  {
    LastOfMatches(s, 0);
  }

  /** A match's groups are the text it spans: the integer part, a separator, then the two decimals. */
  lemma MatchText(s: string, p: nat)
    requires p <= |s| && MatchAt(s, p).Some?
    ensures var m := MatchAt(s, p).value; var q := p + |m.intPart|;
      q + 3 <= m.end && s[p..q] == m.intPart && (s[q] == '.' || s[q] == ',')
      && s[q + 1..q + 3] == m.decimals
  {
  }

  /**
   * A kept line whose last price is in range gives the row made of that
   * price and the label and quantity read from the text before it.
   */
  lemma RowOfLine(s: string, m: PriceMatch)
    requires !IsReceiptSkipLine(s) && LastPriceMatch(s) == Some(m)
    requires WellFormed(m) && 0 < PriceCents(m) <= MaxPriceCents
    ensures m.start <= |s|
    ensures ParseLine(s) == Some(Parsed(LabelOf(Trim(s[..m.start])).0, PriceCents(m), LabelOf(Trim(s[..m.start])).1))
  {
    assert ParseLine(s) == PricedRow(s, m);
  }

  /** A label with a quantity prefix of more than 1 keeps what follows the prefix and takes its count. */
  lemma PrefixedLabel(t: string, q: QtyPrefix)
    requires QtyPrefixMatch(t) == Some(q) && q.count > 1
    requires Trimmed(t[q.length..]) && |t[q.length..]| >= 2
    ensures LabelOf(t) == (t[q.length..], q.count)
  {
    TrimNoop(t[q.length..]);
  }

  /** A trimmed line that none of the eight patterns matches is kept. */
  lemma NoSkipPattern(t: string)
    requires Trimmed(t)
    requires !IsTwoWords(t, "ОБЩА", "СУМА") && !IsWord(t, "СУМА") && !IsTwoWords(t, "В", "БРОЙ")
    requires !WordAt(t, 0, "БОН:") && !IsWord(t, "TOTAN") && !Contains(t, "#сума")
    requires !IsFooterCode(t) && !IsItemCounter(t)
    ensures !IsReceiptSkipLine(t)
  {
    TrimNoop(t);
  }

  /** `isReceiptSkipLine` looks at the trimmed line only: white space around a line never changes whether it is skipped. */
  lemma SkipLineIgnoresPadding(s: string)
    ensures IsReceiptSkipLine(Trim(s)) <==> IsReceiptSkipLine(s)
  {
    TrimIdempotent(s);
  }

  /** `/^a\s+b$/i` matches both or neither of two lines that differ only in letter case. */
  lemma TwoWordsSameFold(t: string, u: string, a: string, b: string)
    requires SameFold(t, u)
    ensures IsTwoWords(t, a, b) <==> IsTwoWords(u, a, b)
  {
    if |a| <= |t| {
      SpanSameFold(t, u, |a|, Space);
    }
  }

  /** The footer-code pattern matches both or neither of two lines that differ only in letter case. */
  lemma FooterCodeSameFold(t: string, u: string)
    requires SameFold(t, u)
    ensures IsFooterCode(t) <==> IsFooterCode(u)
  {
    if WordAt(t, 0, "Пг.#") {
      SpanSameFold(t, u, 4, Digit);
      SpanSameFold(t, u, Span(t, 4, Digit), Space);
    }
  }

  /** The item-counter pattern matches both or neither of two lines that differ only in letter case. */
  lemma ItemCounterSameFold(t: string, u: string)
    requires SameFold(t, u)
    ensures IsItemCounter(t) <==> IsItemCounter(u)
  {
    SpanSameFold(t, u, 0, Digit);
    SpanSameFold(t, u, Span(t, 0, Digit), Space);
  }

  /** The skip patterns carry the `i` flag: lines that differ only in letter case are skipped alike. */
  lemma SkipPatternCaseless(t: string, u: string)
    requires SameFold(t, u)
    ensures MatchesSkipPattern(t) <==> MatchesSkipPattern(u)
  {
    TwoWordsSameFold(t, u, "ОБЩА", "СУМА");
    TwoWordsSameFold(t, u, "В", "БРОЙ");
    FooterCodeSameFold(t, u);
    ItemCounterSameFold(t, u);
    ContainsSameFold(t, u, "#сума");
  }

  /** A trimmed label of two characters or more that does not begin with a digit is kept whole, with quantity 1. */
  lemma PlainLabel(t: string)
    requires Trimmed(t) && |t| >= 2 && !IsDigit(t[0])
    ensures LabelOf(Trim(t)) == (t, 1)
  {
    TrimNoop(t);
    SpanIs(t, 0, Digit, 0);
  }

  // ----- Helpers for evaluating the parser on given lines -----

  /** No match starts at a character outside `[\d\s]`. */
  lemma NoMatchAt(s: string, p: nat)
    requires p < |s| && !InClass(s[p], DigitOrSpace)
    ensures MatchAt(s, p).None?
  {
  }

  /** No match starts at `p` when the run of digits and white space from `p` is followed by something other than a separator. */
  lemma NoSeparatorAfter(s: string, p: nat, q: nat)
    requires p < q < |s| && (forall k :: p <= k < q ==> InClass(s[k], DigitOrSpace))
    requires !InClass(s[q], DigitOrSpace) && s[q] != '.' && s[q] != ','
    ensures MatchAt(s, p).None?
  {
    SpanIs(s, p, DigitOrSpace, q);
  }

  /** `exec` from `from` passes over the positions where no match starts and returns the one at `at`. */
  lemma {:induction false} ExecReaches(s: string, from: nat, at: nat)
    requires from <= at < |s|
    requires forall p :: from <= p < at ==> MatchAt(s, p).None?
    requires MatchAt(s, at).Some?
    ensures ExecFrom(s, from) == MatchAt(s, at)
    decreases at - from
  {
    if from < at {
      ExecReaches(s, from + 1, at);
    }
  }

  /** `exec` from `from` finds nothing when no match starts at or after `from`. */
  lemma {:induction false} ExecNone(s: string, from: nat)
    requires from <= |s|
    requires forall p :: from <= p < |s| ==> MatchAt(s, p).None?
    ensures ExecFrom(s, from).None?
    decreases |s| - from
  {
    if from < |s| {
      ExecNone(s, from + 1);
    }
  }

  /** Two matches in a row, the second one the last. */
  lemma LastOfTwo(s: string, m1: PriceMatch, m2: PriceMatch)
    requires m1.end <= |s| && m2.end <= |s|
    requires ExecFrom(s, 0) == Some(m1) && ExecFrom(s, m1.end) == Some(m2) && ExecFrom(s, m2.end).None?
    ensures LastPriceMatch(s) == Some(m2)
  {
    assert MatchesFrom(s, m1.end) == [m2];
  }

  /** A single match. */
  lemma LastOfOne(s: string, m: PriceMatch)
    requires m.end <= |s|
    requires ExecFrom(s, 0) == Some(m) && ExecFrom(s, m.end).None?
    ensures LastPriceMatch(s) == Some(m)
  {
    assert MatchesFrom(s, 0) == [m];
  }

  lemma UpperFixes(c: char, w: char)
    requires !('a' <= w <= 'z') && !('A' <= w <= 'Z') && !(0x400 <= w as int <= 0x4FF) && !(0x1C80 <= w as int <= 0x1C88)
    requires w != '\U{0462}' && w != '\U{A64A}'
    ensures Upper(c) == w ==> c == w
  {
  }

  /** A line with no `#` does not contain `#сума`. */
  lemma NoHashSum(t: string)
    requires '#' !in t
    ensures !Contains(t, "#сума")
  {
    forall i | 0 <= i <= |t| ensures !WordAt(t, i, "#сума") {
      if i < |t| {
        UpperFixes(t[i], '#');
        assert t[i] in t;
        assert Upper("#сума"[0]) == '#';
      }
    }
  }

  /** A line whose first letter folds to `u` matches no anchored pattern whose first letter folds to something else. */
  lemma FirstLetterRules(t: string, w: string)
    requires |t| > 0 && |w| > 0 && Upper(t[0]) != Upper(w[0])
    ensures !WordAt(t, 0, w)
  {
    assert t[0 + 0] == t[0];
  }

  /** The same at any position `i`. */
  lemma FirstLetterRulesAt(t: string, i: nat, w: string)
    requires i < |t| && |w| > 0 && Upper(t[i]) != Upper(w[0])
    ensures !WordAt(t, i, w)
  {
    assert t[i + 0] == t[i];
  }

  /** A line that starts with an ASCII letter other than T and holds no `#` matches none of the skip patterns. */
  lemma LatinLineMatchesNoPattern(t: string)
    requires |t| > 0 && '#' !in t
    requires ('a' <= t[0] <= 'z' || 'A' <= t[0] <= 'Z') && t[0] != 't' && t[0] != 'T'
    ensures !MatchesSkipPattern(t)
  {
    assert 'A' <= Upper(t[0]) <= 'Z' && Upper(t[0]) != 'T';
    FirstLetterRules(t, "ОБЩА");
    FirstLetterRules(t, "СУМА");
    FirstLetterRules(t, "В");
    FirstLetterRules(t, "БОН:");
    FirstLetterRules(t, "TOTAN");
    FirstLetterRules(t, "Пг.#");
    assert Span(t, 0, Digit) == 0;
    NoHashSum(t);
  }

  // ----- The price a match stands for -----

  /**
   * `parseFloat` of the text `parsePriceFromMatch` builds reads the same
   * amount as the cents the model keeps: the integer digits, white space
   * removed, and the two decimals.
   */
  lemma PriceTextValue(m: PriceMatch)
    requires WellFormed(m)
    ensures DecimalOf(RemoveSpaces(m.intPart), m.decimals) == PriceCents(m) as real / 100.0
    ensures NumericValue(PriceText(m)) == PriceCents(m) as real / 100.0
  {
    var d := RemoveSpaces(m.intPart);
    assert Pow10(2) == 100;
    var i := DigitsValue(d);
    var f := DigitsValue(m.decimals);
    assert (i * 100 + f) as real / 100.0 == i as real + f as real / 100.0;
    DecimalValue(d, m.decimals);
  }

  // ----- parseReceiptText -----

  /** The rows of a non-empty run of lines are the rows of all but its last line, then those of the last. */
  lemma ParseLinesLast(ls: seq<string>)
    requires ls != []
    ensures ParseLines(ls) == ParseLines(ls[..|ls| - 1]) + LineRows(ls[|ls| - 1])
  {
  }

  lemma {:induction false} RowsOfAppend(f: string -> seq<Parsed>, a: seq<string>, b: seq<string>)
    ensures RowsOf(f, a + b) == RowsOf(f, a) + RowsOf(f, b)
    decreases |b|
  {
    if b == [] {
      assert a + b == a;
    } else {
      RowsOfAppend(f, a, b[..|b| - 1]);
      var ab := a + b;
      assert ab[..|ab| - 1] == a + b[..|b| - 1];
    }
  }

  /** The loop over lines handles each line on its own: the rows of two runs of lines are the rows of each, in order. */
  lemma ParseLinesAppend(a: seq<string>, b: seq<string>)
    ensures ParseLines(a + b) == ParseLines(a) + ParseLines(b)
  {
    RowsOfAppend(LineRows, a, b);
  }

  /** A row the loop pushes satisfies the guard it passed. */
  predicate GoodRow(p: Parsed) {
    p.qty >= 1 && 0 < p.cents <= MaxPriceCents && (p.title == Unreadable || Utf16Length(p.title) >= 2)
  }

  /** Every row of every line passed the loop's guard. */
  lemma {:induction false} ParseLinesGood(lines: seq<string>)
    ensures forall k :: 0 <= k < |ParseLines(lines)| ==> GoodRow(ParseLines(lines)[k])
    decreases |lines|
  {
    if lines != [] {
      var init, l := lines[..|lines| - 1], lines[|lines| - 1];
      ParseLinesGood(init);
      ParseLinesLast(lines);
    }
  }

  /** `ps.map(s => s.trim())`. */
  function TrimAll(ps: seq<string>): (ts: seq<string>)
    ensures |ts| == |ps| && forall j :: 0 <= j < |ps| ==> ts[j] == Trim(ps[j])
  {
    if ps == [] then [] else [Trim(ps[0])] + TrimAll(ps[1..])
  }

  /** Every line the parser reads is one of the trimmed pieces. */
  lemma {:induction false} TrimmedNonBlankSound(ps: seq<string>)
    ensures forall l :: l in TrimmedNonBlank(ps) ==> l in TrimAll(ps)
  {
    if ps != [] {
      TrimmedNonBlankSound(ps[1..]);
      assert TrimAll(ps) == [Trim(ps[0])] + TrimAll(ps[1..]);
    }
  }

  /** Every piece that is not blank once trimmed is read, trimmed. */
  lemma {:induction false} TrimmedNonBlankComplete(ps: seq<string>)
    ensures forall j :: 0 <= j < |ps| && Trim(ps[j]) != "" ==> Trim(ps[j]) in TrimmedNonBlank(ps)
  {
    if ps != [] {
      TrimmedNonBlankComplete(ps[1..]);
      var rest := TrimmedNonBlank(ps[1..]);
      var ls := TrimmedNonBlank(ps);
      assert forall x :: x in rest ==> x in ls;
      forall j | 0 <= j < |ps| && Trim(ps[j]) != "" ensures Trim(ps[j]) in ls {
        if j > 0 {
          assert ps[1..][j - 1] == ps[j];
        }
      }
    }
  }

  /** Lines that are trimmed already and not blank are all read, as they are. */
  lemma {:induction false} TrimmedNonBlankKeeps(ls: seq<string>)
    requires forall k :: 0 <= k < |ls| ==> ls[k] != "" && Trimmed(ls[k])
    ensures TrimmedNonBlank(ls) == ls
  {
    if ls != [] {
      TrimmedNonBlankKeeps(ls[1..]);
      TrimNoop(ls[0]);
    }
  }

  /** The lines of `text` that the parser reads. */
  lemma ReceiptLinesOf(text: string)
    ensures forall k :: 0 <= k < |ReceiptLines(text)| ==> ReceiptLines(text)[k] != "" && Trimmed(ReceiptLines(text)[k])
    ensures forall l :: l in ReceiptLines(text) ==> l in TrimAll(SplitLines(text))
    ensures forall j :: 0 <= j < |SplitLines(text)| && Trim(SplitLines(text)[j]) != "" ==>
      Trim(SplitLines(text)[j]) in ReceiptLines(text)
  {
    TrimmedNonBlankSound(SplitLines(text));
    TrimmedNonBlankComplete(SplitLines(text));
  }

  /**
   * A line gives no row exactly when it is a skip line, has no price, or its
   * last price is 0 or above 999999.99.
   */
  lemma LineDropped(l: string)
    ensures LineRows(l) == [] <==>
      IsReceiptSkipLine(l) || LastPriceMatch(l).None?
      || PriceCents(LastPriceMatch(l).value) == 0 || PriceCents(LastPriceMatch(l).value) > MaxPriceCents
  {
  }

  /** One line gives its row, or nothing. */
  lemma ParseOneLine(l: string)
    ensures ParseLines([l]) == LineRows(l)
  {
    ParseLinesLast([l]);
    assert [l][..0] == [];
  }

  /**
   * What `parseReceiptText` leaves in `state.items`: at least one row, ids
   * counting up from `firstId`, every quantity at least 1; a single blank row
   * when no line gave a price, and otherwise one row per priced line, in order,
   * whose price text reads back as that line's price in (0, 999999.99] and
   * whose label has two UTF-16 code units or is the unreadable label.
   */
  lemma ReceiptItemsShape(text: string, firstId: int)
    ensures var items := ReceiptItems(text, firstId);
      |items| >= 1
      && (forall k :: 0 <= k < |items| ==> items[k].id == firstId + k && items[k].qty >= 1)
    ensures var ps := ParseLines(ReceiptLines(text));
      ps == [] ==> ReceiptItems(text, firstId) == [BlankItem(firstId)]
    ensures var ps := ParseLines(ReceiptLines(text)); var items := ReceiptItems(text, firstId);
      ps != [] ==> |items| == |ps| && forall k :: 0 <= k < |items| ==>
        items[k].title == ps[k].title && items[k].qty == ps[k].qty
        && items[k].price == CentsText(ps[k].cents)
        && NumericValue(items[k].price) == ps[k].cents as real / 100.0
        && 0.0 < NumericValue(items[k].price) <= 999999.99
        && (items[k].title == Unreadable || Utf16Length(items[k].title) >= 2)
  {
    var ps := ParseLines(ReceiptLines(text));
    if ps != [] {
      ParseLinesGood(ReceiptLines(text));
      var items := ParsedItems(ps, firstId);
      forall k | 0 <= k < |items|
        ensures items[k].title == ps[k].title && items[k].qty == ps[k].qty
        ensures items[k].price == CentsText(ps[k].cents)
        ensures NumericValue(items[k].price) == ps[k].cents as real / 100.0
        ensures 0.0 < NumericValue(items[k].price) <= 999999.99
        ensures items[k].title == Unreadable || Utf16Length(items[k].title) >= 2
      {
        FormatCents(ps[k].cents);
        NumericValueOfCents(ps[k].cents);
      }
    }
  }

  /** The ids `parseReceiptText` hands out are distinct and below the new value of the counter. */
  lemma ReceiptItemIds(text: string, firstId: int)
    ensures var items := ReceiptItems(text, firstId);
      DistinctIds(items) && forall k :: 0 <= k < |items| ==> firstId <= items[k].id < firstId + |items|
  {
    ReceiptItemsShape(text, firstId);
  }
}
