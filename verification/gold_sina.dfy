/**
 * The quote-text parser: a scan of the quote service's response for
 * `var hq_str_<symbol>="<fields>"` assignments, the split of each field list
 * into a quote record with its fallbacks and derived quantities, and the
 * selection of the first quote's price.
 */
module SinaQuotes {
  import opened Wrappers

  // ---------------------------------------------------------------------
  // The scan for `var hq_str_(\w+)="([^"]+)"`
  // ---------------------------------------------------------------------

  /** The literal text every match starts with. */
  const Lead: string := "var hq_str_"

  /** The ASCII part of the regex class `\w`. */
  predicate IsWordChar(c: char) {
    'a' <= c <= 'z' || 'A' <= c <= 'Z' || '0' <= c <= '9' || c == '_'
  }

  /** The length of the longest prefix of word characters (what greedy `\w+` takes). */
  function WordRun(s: string): (n: nat)
    ensures n <= |s|
    ensures forall k :: 0 <= k < n ==> IsWordChar(s[k])
    ensures n < |s| ==> !IsWordChar(s[n])
  {
    if s != [] && IsWordChar(s[0]) then 1 + WordRun(s[1..]) else 0
  }

  /** The length of the longest prefix without a double quote (what greedy `[^"]+` takes). */
  function PayloadRun(s: string): (n: nat)
    ensures n <= |s|
    ensures forall k :: 0 <= k < n ==> s[k] != '"'
    ensures n < |s| ==> s[n] == '"'
  {
    if s != [] && s[0] != '"' then 1 + PayloadRun(s[1..]) else 0
  }

  /** One match: the symbol group and the data group. */
  datatype Hit = Hit(symbol: string, payload: string)

  /** What the two groups can hold: a non-empty run of word characters, a non-empty run without quotes. */
  predicate WellFormed(h: Hit) {
    && h.symbol != []
    && (forall k :: 0 <= k < |h.symbol| ==> IsWordChar(h.symbol[k]))
    && h.payload != []
    && (forall k :: 0 <= k < |h.payload| ==> h.payload[k] != '"')
  }

  /** The text a hit is matched from. */
  function Source(h: Hit): string {
    Lead + h.symbol + "=\"" + h.payload + "\""
  }

  /**
   * The pattern tried at the start of `s`: the hit and the number of
   * characters it spans. Both runs are greedy and are followed by a
   * character the run cannot contain, so backtracking never changes the
   * outcome and the match is determined by the maximal runs.
   */
  function MatchAt(s: string): (r: Option<(Hit, nat)>)
    ensures r.Some? ==> WellFormed(r.value.0) && 0 < r.value.1 <= |s|
  {
    if |s| < |Lead| || s[..|Lead|] != Lead then None
    else
      var w := WordRun(s[|Lead|..]);
      var eq: nat := |Lead| + w;
      if w == 0 || eq + 2 > |s| || s[eq] != '=' || s[eq + 1] != '"' then None
      else
        var p := PayloadRun(s[eq + 2..]);
        var close: nat := eq + 2 + p;
        if p == 0 || close >= |s| then None
        else
          var n: nat := close + 1;
          Some((Hit(s[|Lead|..eq], s[eq + 2..close]), n))
  }

  /** A match spans exactly the rendering of the hit it reads. */
  lemma MatchAtSpan(s: string)
    ensures var r := MatchAt(s);
      r.Some? ==> r.value.1 == |Source(r.value.0)| && s[..r.value.1] == Source(r.value.0)
  {
    if MatchAt(s).Some? {
      var w := WordRun(s[|Lead|..]);
      var eq := |Lead| + w;
      var close := eq + 2 + PayloadRun(s[eq + 2..]);
      SourceSlices(s, MatchAt(s).value.0, eq, close);
    }
  }

  /** The text from the start of `s` to a closing quote, cut at the group boundaries, is the hit's source. */
  lemma SourceSlices(s: string, h: Hit, eq: nat, close: nat)
    requires |Lead| <= eq && eq + 2 <= close < |s|
    requires s[..|Lead|] == Lead && h.symbol == s[|Lead|..eq] && h.payload == s[eq + 2..close]
    requires s[eq] == '=' && s[eq + 1] == '"' && s[close] == '"'
    ensures |Source(h)| == close + 1 && s[..close + 1] == Source(h)
  {
    var L := |Lead|;
    assert s[eq..eq + 2] == "=\"";
    assert s[close..close + 1] == "\"";
    assert s[..close + 1] == s[..L] + s[L..eq] + s[eq..eq + 2] + s[eq + 2..close] + s[close..close + 1];
  }

  /** `re.findall`: matches are tried left to right and never overlap. */
  function FindAll(s: string): (hits: seq<Hit>)
    ensures forall i :: 0 <= i < |hits| ==> WellFormed(hits[i])
    decreases |s|
  {
    if s == [] then []
    else
      match MatchAt(s)
      case Some((h, n)) => [h] + FindAll(s[n..])
      case None => FindAll(s[1..])
  }

  /** `p` occurs in `s` at some position. */
  ghost predicate Occurs(p: string, s: string) {
    exists i :: 0 <= i <= |s| && p <= s[i..]
  }

  /** Every hit was matched from text that occurs in the input. */
  lemma {:induction false} FindAllSound(s: string)
    ensures forall i :: 0 <= i < |FindAll(s)| ==> Occurs(Source(FindAll(s)[i]), s)
    decreases |s|
  {
    if s != [] {
      match MatchAt(s)
      case Some((h, n)) =>
        FindAllSound(s[n..]);
        MatchAtSpan(s);
        assert Source(h) <= s[0..];
        OccursLater(FindAll(s[n..]), s, n);
      case None =>
        FindAllSound(s[1..]);
        OccursLater(FindAll(s[1..]), s, 1);
    }
  }

  /** What occurs in a suffix of `s` occurs in `s`. */
  lemma OccursLater(hits: seq<Hit>, s: string, n: nat)
    requires n <= |s|
    requires forall i :: 0 <= i < |hits| ==> Occurs(Source(hits[i]), s[n..])
    ensures forall i :: 0 <= i < |hits| ==> Occurs(Source(hits[i]), s)
  {
    forall i | 0 <= i < |hits| ensures Occurs(Source(hits[i]), s) {
      var k :| 0 <= k <= |s[n..]| && Source(hits[i]) <= s[n..][k..];
      assert s[n..][k..] == s[n + k..];
    }
  }

  /** The text a quote response carries for a list of hits, one `...;` line each. */
  function Feed(hits: seq<Hit>): string {
    if hits == [] then [] else Source(hits[0]) + ";\n" + Feed(hits[1..])
  }

  /** A run of `m` word characters ended by another character is exactly what `\w+` takes. */
  lemma WordRunStops(s: string, m: nat)
    requires m < |s| && !IsWordChar(s[m])
    requires forall k :: 0 <= k < m ==> IsWordChar(s[k])
    ensures WordRun(s) == m
  {
  }

  /** A run of `m` non-quote characters ended by a quote is exactly what `[^"]+` takes. */
  lemma PayloadRunStops(s: string, m: nat)
    requires m < |s| && s[m] == '"'
    requires forall k :: 0 <= k < m ==> s[k] != '"'
    ensures PayloadRun(s) == m
  {
  }

  /** The pattern matches at the front when the lead, both runs and the delimiters are in place. */
  lemma MatchAtIntro(s: string, w: nat, p: nat)
    requires |Lead| + w + 2 + p < |s| && s[..|Lead|] == Lead
    requires w > 0 && WordRun(s[|Lead|..]) == w && s[|Lead| + w] == '=' && s[|Lead| + w + 1] == '"'
    requires p > 0 && PayloadRun(s[|Lead| + w + 2..]) == p
    ensures MatchAt(s) ==
      Some((Hit(s[|Lead|..|Lead| + w], s[|Lead| + w + 2..|Lead| + w + 2 + p]), |Lead| + w + 2 + p + 1))
  {
  }

  /** Where the parts of a hit sit in its rendering followed by any text. */
  lemma SourceLayout(h: Hit, rest: string)
    ensures var s, L, m, p := Source(h) + rest, |Lead|, |h.symbol|, |h.payload|;
      && |s| == L + m + 2 + p + 1 + |rest|
      && s[..L] == Lead
      && s[L..L + m] == h.symbol
      && s[L + m] == '=' && s[L + m + 1] == '"'
      && s[L + m + 2..L + m + 2 + p] == h.payload
      && s[L + m + 2 + p] == '"'
  {
    var s, L, m, p := Source(h) + rest, |Lead|, |h.symbol|, |h.payload|;
    assert forall k :: 0 <= k < L ==> s[k] == Lead[k];
    assert forall k :: 0 <= k < m ==> s[L + k] == h.symbol[k];
    assert forall k :: 0 <= k < p ==> s[L + m + 2 + k] == h.payload[k];
  }

  /** In the rendering of a well-formed hit, the greedy runs stop exactly at the group ends. */
  lemma RunsOfSource(h: Hit, rest: string)
    requires WellFormed(h)
    ensures var s, L, m := Source(h) + rest, |Lead|, |h.symbol|;
      && L + m + 2 <= |s|
      && WordRun(s[L..]) == m
      && PayloadRun(s[L + m + 2..]) == |h.payload|
  {
    var s, L, m, p := Source(h) + rest, |Lead|, |h.symbol|, |h.payload|;
    SourceLayout(h, rest);
    assert forall k :: 0 <= k < m ==> s[L..][k] == h.symbol[k];
    WordRunStops(s[L..], m);
    assert forall k :: 0 <= k < p ==> s[L + m + 2..][k] == h.payload[k];
    PayloadRunStops(s[L + m + 2..], p);
  }

  /** The scan recognises exactly the rendering of a well-formed hit. */
  lemma MatchAtSource(h: Hit, rest: string)
    requires WellFormed(h)
    ensures MatchAt(Source(h) + rest) == Some((h, |Source(h)|))
  {
    SourceLayout(h, rest);
    RunsOfSource(h, rest);
    MatchAtIntro(Source(h) + rest, |h.symbol|, |h.payload|);
  }

  /** After a match the scan resumes right behind it. */
  lemma FindAllAfterMatch(s: string, h: Hit, n: nat)
    requires s != [] && MatchAt(s) == Some((h, n))
    ensures FindAll(s) == [h] + FindAll(s[n..])
  {
  }

  /** Text that cannot start a match is skipped one character at a time. */
  lemma SkipSeparator(rest: string)
    ensures FindAll(";\n" + rest) == FindAll(rest)
  {
    var s := ";\n" + rest;
    assert s[0] != Lead[0];
    assert MatchAt(s).None?;
    assert s[1..] == "\n" + rest;
    var t := s[1..];
    assert t[0] != Lead[0];
    assert MatchAt(t).None?;
    assert t[1..] == rest;
  }

  /** Scanning the rendered response gives back exactly the hits, in order. */
  lemma {:induction false} FindAllFeed(hits: seq<Hit>)
    requires forall i :: 0 <= i < |hits| ==> WellFormed(hits[i])
    ensures FindAll(Feed(hits)) == hits
  {
    if hits != [] {
      var h := hits[0];
      var tail := ";\n" + Feed(hits[1..]);
      var s := Source(h) + tail;
      assert Feed(hits) == s;
      MatchAtSource(h, tail);
      FindAllAfterMatch(s, h, |Source(h)|);
      assert s[|Source(h)|..] == tail;
      SkipSeparator(Feed(hits[1..]));
      FindAllFeed(hits[1..]);
    }
  }

  // ---------------------------------------------------------------------
  // Splitting on commas (Python's `str.split(',')`)
  // ---------------------------------------------------------------------

  /** The pieces of `s` between separators; never empty, and `""` gives `[""]`. */
  function Split(s: string, sep: char): (parts: seq<string>)
    ensures |parts| >= 1
    ensures forall i :: 0 <= i < |parts| ==> sep !in parts[i]
    decreases |s|
  {
    if s == [] then [[]]
    else
      var rest := Split(s[1..], sep);
      if s[0] == sep then [[]] + rest else [[s[0]] + rest[0]] + rest[1..]
  }

  /** The pieces glued back together with the separator between them. */
  function Join(parts: seq<string>, sep: char): string {
    if parts == [] then []
    else if |parts| == 1 then parts[0]
    else parts[0] + [sep] + Join(parts[1..], sep)
  }

  /** Splitting loses nothing: the pieces rejoin to the original text. */
  lemma {:induction false} JoinSplit(s: string, sep: char)
    ensures Join(Split(s, sep), sep) == s
    decreases |s|
  {
    if s != [] {
      var rest := Split(s[1..], sep);
      JoinSplit(s[1..], sep);
      if s[0] != sep && |rest| > 1 {
        assert Join(rest, sep) == rest[0] + [sep] + Join(rest[1..], sep);
        assert Join([[s[0]] + rest[0]] + rest[1..], sep)
            == ([s[0]] + rest[0]) + [sep] + Join(rest[1..], sep);
      }
    }
  }

  /** A separator-free prefix extends the first piece. */
  lemma {:induction false} SplitPrefix(a: string, t: string, sep: char)
    requires sep !in a
    ensures Split(a + t, sep) == [a + Split(t, sep)[0]] + Split(t, sep)[1..]
    decreases |a|
  {
    if a != [] {
      assert (a + t)[1..] == a[1..] + t;
      assert a[0] in a;
      SplitPrefix(a[1..], t, sep);
      assert [a[0]] + (a[1..] + Split(t, sep)[0]) == a + Split(t, sep)[0];
    } else {
      assert a + t == t;
      assert a + Split(t, sep)[0] == Split(t, sep)[0];
    }
  }

  /** Joining separator-free pieces and splitting again gives the pieces back. */
  lemma {:induction false} SplitJoin(parts: seq<string>, sep: char)
    requires |parts| >= 1
    requires forall i :: 0 <= i < |parts| ==> sep !in parts[i]
    ensures Split(Join(parts, sep), sep) == parts
  {
    if |parts| == 1 {
      SplitPrefix(parts[0], [], sep);
      assert parts[0] + [] == parts[0];
    } else {
      var j := Join(parts[1..], sep);
      SplitJoin(parts[1..], sep);
      SplitPrefix(parts[0], [sep] + j, sep);
      assert ([sep] + j)[1..] == j;
      assert parts[0] + [sep] + j == parts[0] + ([sep] + j);
      assert parts[0] + [] == parts[0];
    }
  }

  // ---------------------------------------------------------------------
  // One quote (`parse_single`)
  // ---------------------------------------------------------------------

  /** Why parsing a quote raised: a field index past the end, or text `float` rejects. */
  datatype ParseError = MissingField(index: nat) | NotANumber(index: nat)

  /** A field `float` accepts: empty (the fallback is used) or decodable. */
  predicate Decodable(field: string, parseFloat: string -> Option<real>) {
    field == "" || parseFloat(field).Some?
  }

  /** `value` is what a numeric field yields: the fallback when empty, its decoding otherwise. */
  predicate Decodes(field: string, value: real, fallback: real, parseFloat: string -> Option<real>) {
    if field == "" then value == fallback else parseFloat(field) == Some(value)
  }

  /** `float(fields[i]) if fields[i] else fallback`. */
  function NumberField(fields: seq<string>, i: nat, fallback: real, parseFloat: string -> Option<real>)
    : (r: Result<real, ParseError>)
    ensures i >= |fields| ==> r == Failure(MissingField(i))
    ensures i < |fields| ==> (r.Success? <==> Decodable(fields[i], parseFloat))
    ensures r.Success? ==> i < |fields| && Decodes(fields[i], r.value, fallback, parseFloat)
  {
    if i >= |fields| then Failure(MissingField(i))
    else if fields[i] == "" then Success(fallback)
    else
      match parseFloat(fields[i])
      case Some(v) => Success(v)
      case None => Failure(NotANumber(i))
  }

  /** `fields[i] if fields[i] else fallback`. */
  function TextField(fields: seq<string>, i: nat, fallback: string): (r: Result<string, ParseError>)
    ensures i >= |fields| <==> r.Failure?
    ensures r.Success? ==> r.value == if fields[i] == "" then fallback else fields[i]
  {
    if i >= |fields| then Failure(MissingField(i))
    else if fields[i] == "" then Success(fallback) else Success(fields[i])
  }

  /** The record built for one symbol. */
  datatype Quote = Quote(
    symbol: string,
    name: string,
    price: real,
    change: real,
    changePercent: real,
    bid: real,
    ask: real,
    high: real,
    low: real,
    openPrice: real,
    prevClose: real,
    time: string,
    date: string,
    spread: real)

  /** The time used when the time field is empty. */
  const MidnightTime: string := "00:00:00"

  /**
   * `parse_single`: splits the data on commas and reads the fields by
   * position. `today` is the formatted current date used when there is no
   * date field; `parseFloat` is Python's `float` on text (`None` where it
   * raises).
   */
  function ParseSingle(symbol: string, data: string, today: string, parseFloat: string -> Option<real>)
    : (r: Result<Quote, ParseError>)
    ensures r.Success? ==> r.value.symbol == symbol
  {
    ReadFields(symbol, Split(data, ','), today, parseFloat)
  }

  /** The body of `parse_single` after the split. */
  function ReadFields(symbol: string, fields: seq<string>, today: string, parseFloat: string -> Option<real>)
    : (r: Result<Quote, ParseError>)
    ensures r.Success? ==> r.value.symbol == symbol
  {
    var price :- NumberField(fields, 0, 0.0, parseFloat);
    var bid :- NumberField(fields, 2, price, parseFloat);
    var ask :- NumberField(fields, 3, price, parseFloat);
    var high :- NumberField(fields, 4, price, parseFloat);
    var low :- NumberField(fields, 5, price, parseFloat);
    var time :- TextField(fields, 6, MidnightTime);
    var openPrice :- NumberField(fields, 7, price, parseFloat);
    var prevClose :- NumberField(fields, 8, price, parseFloat);
    var date := if |fields| > 12 then fields[12] else today;
    var name := if |fields| > 13 then fields[13] else symbol;
    var change := price - prevClose;
    var changePercent := if prevClose > 0.0 then change / prevClose * 100.0 else 0.0;
    Success(Quote(symbol, name, price, change, changePercent, bid, ask, high, low,
                  openPrice, prevClose, time, date, ask - bid))
  }

  /**
   * When `parse_single` raises: fewer than nine fields, or a numeric field
   * it reads that is neither empty nor a number.
   */
  lemma ParseSingleSucceeds(symbol: string, data: string, today: string, parseFloat: string -> Option<real>)
    ensures var f := Split(data, ',');
      ParseSingle(symbol, data, today, parseFloat).Success? <==>
        && |f| >= 9
        && Decodable(f[0], parseFloat) && Decodable(f[2], parseFloat) && Decodable(f[3], parseFloat)
        && Decodable(f[4], parseFloat) && Decodable(f[5], parseFloat) && Decodable(f[7], parseFloat)
        && Decodable(f[8], parseFloat)
  {
    ReadFieldsSucceeds(symbol, Split(data, ','), today, parseFloat);
  }

  lemma ReadFieldsSucceeds(symbol: string, f: seq<string>, today: string, parseFloat: string -> Option<real>)
    ensures ReadFields(symbol, f, today, parseFloat).Success? <==>
        && |f| >= 9
        && Decodable(f[0], parseFloat) && Decodable(f[2], parseFloat) && Decodable(f[3], parseFloat)
        && Decodable(f[4], parseFloat) && Decodable(f[5], parseFloat) && Decodable(f[7], parseFloat)
        && Decodable(f[8], parseFloat)
  {
  }

  /**
   * The record `parse_single` builds: each value is its field's number or
   * the fallback, and the derived quantities follow from them.
   */
  lemma ParseSingleFields(symbol: string, data: string, today: string, parseFloat: string -> Option<real>)
    requires ParseSingle(symbol, data, today, parseFloat).Success?
    ensures var f := Split(data, ',');
      var q := ParseSingle(symbol, data, today, parseFloat).value;
      FieldsRead(symbol, f, today, parseFloat, q)
  {
    ReadFieldsValues(symbol, Split(data, ','), today, parseFloat);
  }

  /** How each member of a record read from `f` relates to the fields. */
  predicate FieldsRead(symbol: string, f: seq<string>, today: string, parseFloat: string -> Option<real>, q: Quote) {
    && |f| >= 9
    && Decodes(f[0], q.price, 0.0, parseFloat)
    && Decodes(f[2], q.bid, q.price, parseFloat)
    && Decodes(f[3], q.ask, q.price, parseFloat)
    && Decodes(f[4], q.high, q.price, parseFloat)
    && Decodes(f[5], q.low, q.price, parseFloat)
    && Decodes(f[7], q.openPrice, q.price, parseFloat)
    && Decodes(f[8], q.prevClose, q.price, parseFloat)
    && q.time == (if f[6] == "" then MidnightTime else f[6])
    && q.date == (if |f| > 12 then f[12] else today)
    && q.name == (if |f| > 13 then f[13] else symbol)
    && q.change == q.price - q.prevClose
    && (q.prevClose > 0.0 ==> q.changePercent * q.prevClose == q.change * 100.0)
    && (q.prevClose <= 0.0 ==> q.changePercent == 0.0)
    && q.spread == q.ask - q.bid
  }

  lemma ReadFieldsValues(symbol: string, f: seq<string>, today: string, parseFloat: string -> Option<real>)
    requires ReadFields(symbol, f, today, parseFloat).Success?
    ensures FieldsRead(symbol, f, today, parseFloat, ReadFields(symbol, f, today, parseFloat).value)
  {
  }

  // ---------------------------------------------------------------------
  // All quotes (`parse_all`) and the first price (`getPrice`)
  // ---------------------------------------------------------------------

  /**
   * The result dictionary: its keys in insertion order and the records.
   * Re-assigning a key keeps its place in the order, as Python's `dict` does.
   */
  datatype QuoteTable = QuoteTable(order: seq<string>, quotes: map<string, Quote>)

  const EmptyTable: QuoteTable := QuoteTable([], map[])

  /** The order lists each key once, exactly the keys present, and each record is filed under its own symbol. */
  ghost predicate TableValid(t: QuoteTable) {
    && (forall i, j :: 0 <= i < j < |t.order| ==> t.order[i] != t.order[j])
    && (forall k :: k in t.quotes <==> k in t.order)
    && (forall k :: k in t.quotes ==> t.quotes[k].symbol == k)
  }

  /** `results[symbol] = quote`. */
  function Store(t: QuoteTable, symbol: string, q: Quote): QuoteTable {
    if symbol in t.quotes then t.(quotes := t.quotes[symbol := q])
    else QuoteTable(t.order + [symbol], t.quotes[symbol := q])
  }

  /** The symbols of the hits, in order. */
  function Symbols(hits: seq<Hit>): (syms: seq<string>)
    ensures |syms| == |hits|
    ensures forall i :: 0 <= i < |hits| ==> syms[i] == hits[i].symbol
  {
    seq(|hits|, i requires 0 <= i < |hits| => hits[i].symbol)
  }

  /** The position of the first occurrence of `x` in `xs`. */
  ghost function FirstIndex(xs: seq<string>, x: string): (k: nat)
    requires x in xs
    ensures k < |xs| && xs[k] == x
    ensures forall j :: 0 <= j < k ==> xs[j] != x
  {
    if x in xs[..|xs| - 1] then FirstIndex(xs[..|xs| - 1], x) else |xs| - 1
  }

  /** Each element at its first occurrence, in the order of those occurrences. */
  function FirstOccurrences(xs: seq<string>): (r: seq<string>)
    ensures forall x :: x in r <==> x in xs
    ensures forall i, j :: 0 <= i < j < |r| ==> r[i] != r[j]
    ensures forall i, j :: 0 <= i < j < |r| ==> FirstIndex(xs, r[i]) < FirstIndex(xs, r[j])
    ensures xs != [] ==> r != [] && r[0] == xs[0]
  {
    if xs == [] then []
    else
      var p := FirstOccurrences(xs[..|xs| - 1]);
      var x := xs[|xs| - 1];
      assert forall y :: y in xs <==> y in xs[..|xs| - 1] || y == x;
      assert |xs| > 1 ==> xs[..|xs| - 1][0] == xs[0];
      if x in p then p else p + [x]
  }

  /** `parse_single` applied to a hit, as the loop of `parse_all` calls it. */
  function ParseHit(today: string, parseFloat: string -> Option<real>): Hit -> Result<Quote, ParseError> {
    (h: Hit) => ParseSingle(h.symbol, h.payload, today, parseFloat)
  }

  /** A parser that files each record under the symbol it was given. */
  ghost predicate KeepsSymbol(parse: Hit -> Result<Quote, ParseError>) {
    forall h :: parse(h).Success? ==> parse(h).value.symbol == h.symbol
  }

  /** `parse_single` keeps the symbol. */
  lemma ParseHitKeepsSymbol(today: string, parseFloat: string -> Option<real>)
    ensures KeepsSymbol(ParseHit(today, parseFloat))
  {
  }

  /**
   * What the loop of `parse_all` computes from the list of hits: every hit
   * is parsed in turn and filed under its symbol; the first hit whose
   * parsing raises ends it with that error. The per-hit parser is a
   * parameter so that the facts about the loop hold for any parser.
   */
  function Collect(hits: seq<Hit>, parse: Hit -> Result<Quote, ParseError>)
    : (r: Result<QuoteTable, ParseError>)
  {
    if hits == [] then Success(EmptyTable)
    else
      var t :- Collect(hits[..|hits| - 1], parse);
      var h := hits[|hits| - 1];
      var q :- parse(h);
      Success(Store(t, h.symbol, q))
  }

  /** Filing a record under its own symbol keeps a table valid, and a new key goes last. */
  lemma StoreValid(t: QuoteTable, symbol: string, q: Quote)
    requires TableValid(t) && q.symbol == symbol
    ensures TableValid(Store(t, symbol, q))
    ensures Store(t, symbol, q).order == if symbol in t.order then t.order else t.order + [symbol]
  {
  }

  /**
   * A successful parse is a valid table whose keys come in the order of
   * their first occurrence in the response.
   */
  lemma {:induction false} CollectTable(hits: seq<Hit>, parse: Hit -> Result<Quote, ParseError>)
    requires KeepsSymbol(parse)
    ensures var r := Collect(hits, parse);
      r.Success? ==> TableValid(r.value) && r.value.order == FirstOccurrences(Symbols(hits))
  {
    var r := Collect(hits, parse);
    if hits != [] && r.Success? {
      var init := hits[..|hits| - 1];
      var h := hits[|hits| - 1];
      CollectTable(init, parse);
      var t := Collect(init, parse).value;
      var q := parse(h).value;
      StoreValid(t, h.symbol, q);
      var syms := Symbols(hits);
      assert syms[..|syms| - 1] == Symbols(init);
      assert syms[|syms| - 1] == h.symbol;
    }
  }

  /** Parsing succeeds exactly when every hit's data parses. */
  lemma {:induction false} CollectSucceeds(hits: seq<Hit>, parse: Hit -> Result<Quote, ParseError>)
    ensures Collect(hits, parse).Success? <==> forall i :: 0 <= i < |hits| ==> parse(hits[i]).Success?
  {
    if hits != [] {
      var init := hits[..|hits| - 1];
      CollectSucceeds(init, parse);
      assert forall i :: 0 <= i < |init| ==> init[i] == hits[i];
    }
  }

  /** A failure on a prefix of the hits is the failure of the whole scan. */
  lemma {:induction false} CollectFailureSticks(hits: seq<Hit>, n: nat, parse: Hit -> Result<Quote, ParseError>)
    requires n <= |hits|
    requires Collect(hits[..n], parse).Failure?
    ensures Collect(hits, parse) == Collect(hits[..n], parse)
    decreases |hits|
  {
    if n < |hits| {
      var init := hits[..|hits| - 1];
      assert init[..n] == hits[..n];
      CollectFailureSticks(init, n, parse);
    } else {
      assert hits[..n] == hits;
    }
  }

  /**
   * When a symbol occurs more than once, the record of its last occurrence
   * is the one kept.
   */
  lemma {:induction false} CollectLastWins(hits: seq<Hit>, i: nat, parse: Hit -> Result<Quote, ParseError>)
    requires i < |hits| && Collect(hits, parse).Success?
    requires forall j :: i < j < |hits| ==> hits[j].symbol != hits[i].symbol
    ensures parse(hits[i]).Success?
    ensures hits[i].symbol in Collect(hits, parse).value.quotes
    ensures Collect(hits, parse).value.quotes[hits[i].symbol] == parse(hits[i]).value
  {
    var init := hits[..|hits| - 1];
    if i < |hits| - 1 {
      assert init[i] == hits[i];
      CollectLastWins(init, i, parse);
    }
  }

  /** One more hit: its parse is filed into the collection so far, or its error ends the scan. */
  lemma CollectPrefixStep(hits: seq<Hit>, i: nat, t: QuoteTable, parse: Hit -> Result<Quote, ParseError>)
    requires i < |hits| && Collect(hits[..i], parse) == Success(t)
    ensures parse(hits[i]).Failure? ==> Collect(hits[..i + 1], parse) == Failure(parse(hits[i]).error)
    ensures parse(hits[i]).Success? ==>
      Collect(hits[..i + 1], parse) == Success(Store(t, hits[i].symbol, parse(hits[i]).value))
  {
    assert hits[..i + 1][..i] == hits[..i];
  }

  /** The method `parse_all`: the loop over the hits of the scan. */
  method ParseAll(text: string, today: string, parseFloat: string -> Option<real>)
    returns (r: Result<QuoteTable, ParseError>)
    ensures r == Collect(FindAll(text), ParseHit(today, parseFloat))
  {
    var parse := ParseHit(today, parseFloat);
    var hits := FindAll(text);
    var results := EmptyTable;
    var i := 0;
    while i < |hits|
      invariant 0 <= i <= |hits|
      invariant Collect(hits[..i], parse) == Success(results)
    {
      var h := hits[i];
      var q := ParseSingle(h.symbol, h.payload, today, parseFloat);
      assert parse(h) == q;
      CollectPrefixStep(hits, i, results, parse);
      if q.Failure? {
        CollectFailureSticks(hits, i + 1, parse);
        return Failure(q.error);
      }
      results := Store(results, h.symbol, q.value);
      i := i + 1;
    }
    assert hits[..i] == hits;
    return Success(results);
  }

  /** `fetch_realtime` on a response text: a parse that raised gives the empty dictionary. */
  function FetchedTable(text: string, today: string, parseFloat: string -> Option<real>): (t: QuoteTable)
    ensures TableValid(t)
    ensures Collect(FindAll(text), ParseHit(today, parseFloat)).Success? ==> t == Collect(FindAll(text), ParseHit(today, parseFloat)).value
    ensures Collect(FindAll(text), ParseHit(today, parseFloat)).Failure? ==> t == EmptyTable
  {
    ParseHitKeepsSymbol(today, parseFloat);
    CollectTable(FindAll(text), ParseHit(today, parseFloat));
    match Collect(FindAll(text), ParseHit(today, parseFloat))
    case Success(t) => t
    case Failure(_) => EmptyTable
  }

  /** The price of the first entry in insertion order, or nothing for an empty table. */
  function FirstPrice(t: QuoteTable): (r: Option<real>)
    requires TableValid(t)
    ensures r.None? <==> t.quotes == map[]
    ensures r.Some? ==> t.order != [] && r.value == t.quotes[t.order[0]].price
  {
    if t.order == [] then None
    else
      assert t.order[0] in t.quotes;
      Some(t.quotes[t.order[0]].price)
  }

  /** `getPrice` on the response text: parse it and return the first entry's price. */
  method GetPrice(text: string, today: string, parseFloat: string -> Option<real>) returns (price: Option<real>)
    ensures price == FirstPrice(FetchedTable(text, today, parseFloat))
  {
    var parsed := ParseAll(text, today, parseFloat);
    var data := EmptyTable;
    if parsed.Success? {
      data := parsed.value;
    }
    assert data == FetchedTable(text, today, parseFloat);
    if data.order != [] {
      price := Some(data.quotes[data.order[0]].price);
    } else {
      price := None;
    }
  }

  /**
   * The price returned is that of the first symbol in the response, taken
   * from that symbol's last occurrence; there is none when the response has
   * no match or some match fails to parse.
   */
  lemma PriceOfFirstSymbol(text: string, today: string, parseFloat: string -> Option<real>)
    ensures var hits := FindAll(text);
      FirstPrice(FetchedTable(text, today, parseFloat)).None? <==>
        (hits == [] || Collect(hits, ParseHit(today, parseFloat)).Failure?)
    ensures var hits := FindAll(text);
      hits != [] && Collect(hits, ParseHit(today, parseFloat)).Success? ==>
        && hits[0].symbol in Collect(hits, ParseHit(today, parseFloat)).value.quotes
        && FirstPrice(FetchedTable(text, today, parseFloat))
          == Some(Collect(hits, ParseHit(today, parseFloat)).value.quotes[hits[0].symbol].price)
  {
    var hits := FindAll(text);
    var c := Collect(hits, ParseHit(today, parseFloat));
    ParseHitKeepsSymbol(today, parseFloat);
    CollectTable(hits, ParseHit(today, parseFloat));
    var t := FetchedTable(text, today, parseFloat);
    if c.Success? {
      assert t == c.value;
      if hits != [] {
        assert Symbols(hits)[0] == hits[0].symbol;
        assert t.order[0] == hits[0].symbol;
        assert t.order[0] in t.quotes;
      } else {
        assert t.order == [];
        assert t.quotes == map[];
      }
    } else {
      assert t == EmptyTable;
    }
  }
}
