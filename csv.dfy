/** The CSV export of the analysed products: a header line, then one line per
    product with the name quoted, joined by '\n' with no final newline. A
    reader for that text states what the export preserves. */
module Csv {
  import opened Strings
  import opened Options
  import opened Products

  const Headers: seq<string> := ["ID", "Product Name", "Price", "Provider", "Origin", "Type"]

  /** `headers.join(',')`. */
  function HeaderLine(): string
  {
    Join(Headers, ',')
  }

  /** The header line written out. */
  lemma HeaderLineText()
    ensures HeaderLine() == "ID,Product Name,Price,Provider,Origin,Type"
  {
    var h := Headers;
    assert h[..2][..1] == h[..1] && h[..3][..2] == h[..2] && h[..4][..3] == h[..3];
    assert h[..5][..4] == h[..4] && h[..6][..5] == h[..5] && h[..6] == h;
    assert Join(h[..2], ',') == "ID,Product Name";
    assert Join(h[..3], ',') == "ID,Product Name,Price";
    assert Join(h[..4], ',') == "ID,Product Name,Price,Provider";
    assert Join(h[..5], ',') == "ID,Product Name,Price,Provider,Origin";
  }

  /** The header line holds no line break. */
  lemma HeaderSingleLine()
    ensures '\n' !in HeaderLine()
  {
    JoinExcludes(Headers, ',', '\n');
  }

  /** `name.replace(/"/g, '""')`: every double quote doubled. */
  function EscapeQuotes(s: string): (r: string)
    ensures '"' !in s ==> r == s
    ensures |r| >= |s|
    decreases |s|
  {
    if s == [] then []
    else (if s[0] == '"' then "\"\"" else [s[0]]) + EscapeQuotes(s[1..])
  }

  /** Escaping adds only quotes: any other character occurs in the result only
      if it occurs in the input. */
  lemma {:induction false} EscapeExcludes(s: string, c: char)
    requires c != '"' && c !in s
    ensures c !in EscapeQuotes(s)
    decreases |s|
  {
    if s != [] {
      EscapeExcludes(s[1..], c);
    }
  }

  /** The name field: escaped and wrapped in double quotes. */
  function QuoteName(name: string): (r: string)
    ensures |r| >= |name| + 2 && r[0] == '"' && r[|r| - 1] == '"'
    ensures '"' !in name ==> r == ['"'] + name + ['"']
  {
    ['"'] + EscapeQuotes(name) + ['"']
  }

  /** The six fields of a row, in header order. */
  function Fields(p: AnalyzedProduct): (r: seq<string>)
    ensures |r| == |Headers|
    ensures r[0] == p.id
  {
    [p.id, QuoteName(p.name), p.price, p.provider, p.origin, p.productType]
  }

  /** One product's line: its fields joined by ','. It begins with the id
      and the first ','. */
  function RowLine(p: AnalyzedProduct): (r: string)
    ensures |r| > |p.id| && r[..|p.id| + 1] == p.id + [',']
  {
    var fields := Fields(p);
    assert fields == [p.id] + fields[1..];
    JoinCons(p.id, fields[1..], ',');
    Join(fields, ',')
  }

  /** The product lines, in list order. */
  function Rows(products: seq<AnalyzedProduct>): (r: seq<string>)
    ensures |r| == |products|
    ensures forall k :: 0 <= k < |r| ==> r[k] == RowLine(products[k])
  {
    seq(|products|, k requires 0 <= k < |products| => RowLine(products[k]))
  }

  /** The whole file: the header and the product lines joined by '\n'. It
      begins with the header line, which is the whole text when there is no
      product and is otherwise followed by a line break. */
  function CsvText(products: seq<AnalyzedProduct>): (r: string)
    ensures |r| >= |HeaderLine()| && r[..|HeaderLine()|] == HeaderLine()
    ensures products == [] ==> r == HeaderLine()
    ensures products != [] ==> |r| > |HeaderLine()| && r[|HeaderLine()|] == '\n'
  {
    JoinHead(HeaderLine(), Rows(products), '\n');
    Join([HeaderLine()] + Rows(products), '\n')
  }

  /** The text `downloadCsv` produces, or nothing when there is no analysed
      product (the "No analyzed data to download" case). */
  function Download(products: seq<AnalyzedProduct>): (r: Option<string>)
    ensures r.None? <==> products == []
    ensures r.Some? ==> r.value == CsvText(products)
  {
    if |products| == 0 then None else Some(CsvText(products))
  }

  // ---------------------------------------------------------------------
  // reading the text back

  /** The text before the first `c` and the text after it, if `c` occurs. */
  function TakeUntil(s: string, c: char): (r: Option<(string, string)>)
    ensures r.Some? ==> c !in r.value.0 && s == r.value.0 + [c] + r.value.1
    ensures r.None? ==> c !in s
    decreases |s|
  {
    if s == [] then None
    else if s[0] == c then Some(([], s[1..]))
    else match TakeUntil(s[1..], c)
      case None => None
      case Some((a, b)) => Some(([s[0]] + a, b))
  }

  /** Reading up to the first `c` recovers a `c`-free prefix. */
  lemma {:induction false} TakeUntilPrefix(a: string, c: char, b: string)
    requires c !in a
    ensures TakeUntil(a + [c] + b, c) == Some((a, b))
    decreases |a|
  {
    var s := a + [c] + b;
    if a == [] {
      assert s[1..] == b;
    } else {
      assert s[1..] == a[1..] + [c] + b;
      TakeUntilPrefix(a[1..], c, b);
      assert [a[0]] + a[1..] == a;
    }
  }

  /** The inside of a quoted field whose opening quote has been read: up to the
      first lone double quote, each doubled quote read as one. Gives the value
      and the text after the closing quote. */
  function ReadQuoted(s: string): Option<(string, string)>
    decreases |s|
  {
    if s == [] then None
    else if s[0] == '"' then
      if |s| >= 2 && s[1] == '"' then
        match ReadQuoted(s[2..])
        case None => None
        case Some((v, rest)) => Some((['"'] + v, rest))
      else Some(([], s[1..]))
    else
      match ReadQuoted(s[1..])
      case None => None
      case Some((v, rest)) => Some(([s[0]] + v, rest))
  }

  /** Reading an escaped value followed by its closing quote gives the value
      back, whatever the name holds, as long as the closing quote is not
      followed by another quote. */
  lemma {:induction false} ReadQuotedEscaped(v: string, t: string)
    requires t == [] || t[0] != '"'
    ensures ReadQuoted(EscapeQuotes(v) + ['"'] + t) == Some((v, t))
    decreases |v|
  {
    if v == [] {
      ReadQuotedClose(t);
    } else {
      ReadQuotedEscaped(v[1..], t);
      EscapeCons(v);
      if v[0] == '"' {
        ReadQuotedEscapedQuote(v[1..], t);
      } else {
        ReadQuotedEscapedPlain(v[0], v[1..], t);
      }
      assert [v[0]] + v[1..] == v;
    }
  }

  /** The inductive step when the name starts with a quote. */
  lemma ReadQuotedEscapedQuote(rest: string, t: string)
    requires ReadQuoted(EscapeQuotes(rest) + ['"'] + t) == Some((rest, t))
    ensures ReadQuoted(['"', '"'] + EscapeQuotes(rest) + ['"'] + t) == Some((['"'] + rest, t))
  {
    var inner := EscapeQuotes(rest) + ['"'] + t;
    assert ['"', '"'] + EscapeQuotes(rest) + ['"'] + t == ['"', '"'] + inner;
    ReadQuotedDoubled(inner);
  }

  /** The inductive step when the name starts with any other character. */
  lemma ReadQuotedEscapedPlain(x: char, rest: string, t: string)
    requires x != '"'
    requires ReadQuoted(EscapeQuotes(rest) + ['"'] + t) == Some((rest, t))
    ensures ReadQuoted([x] + EscapeQuotes(rest) + ['"'] + t) == Some(([x] + rest, t))
  {
    var inner := EscapeQuotes(rest) + ['"'] + t;
    assert [x] + EscapeQuotes(rest) + ['"'] + t == [x] + inner;
    ReadQuotedPlain(x, inner);
  }

  /** Escaping a non-empty name: its first character, doubled if it is a
      quote, then the rest escaped. */
  lemma EscapeCons(v: string)
    requires v != []
    ensures EscapeQuotes(v) == (if v[0] == '"' then ['"', '"'] else [v[0]]) + EscapeQuotes(v[1..])
  {
  }

  /** A lone quote closes the field. */
  lemma ReadQuotedClose(t: string)
    requires t == [] || t[0] != '"'
    ensures ReadQuoted(['"'] + t) == Some(([], t))
  {
    assert (['"'] + t)[1..] == t;
  }

  /** A doubled quote reads as one quote. */
  lemma ReadQuotedDoubled(s: string)
    ensures ReadQuoted(['"', '"'] + s) ==
      match ReadQuoted(s)
      case None => None
      case Some((v, rest)) => Some((['"'] + v, rest))
  {
    assert (['"', '"'] + s)[2..] == s;
  }

  /** Any other character reads as itself. */
  lemma ReadQuotedPlain(c: char, s: string)
    requires c != '"'
    ensures ReadQuoted([c] + s) ==
      match ReadQuoted(s)
      case None => None
      case Some((v, rest)) => Some(([c] + v, rest))
  {
    assert ([c] + s)[1..] == s;
  }

  /** Reads one product line: the id up to the first ',', the quoted name, a
      ',', then exactly four ','-separated fields. */
  function ParseRow(line: string): Option<AnalyzedProduct>
  {
    match TakeUntil(line, ',')
    case None => None
    case Some((id, rest)) => ParseFromName(id, rest)
  }

  /** After the id: the quoted name, then the remaining fields. */
  function ParseFromName(id: string, rest: string): Option<AnalyzedProduct>
  {
    if rest == [] || rest[0] != '"' then None
    else
      match ReadQuoted(rest[1..])
      case None => None
      case Some((name, after)) => ParseTail(id, name, after)
  }

  /** After the name: a ',' and exactly four ','-separated fields. */
  function ParseTail(id: string, name: string, after: string): Option<AnalyzedProduct>
  {
    if after == [] || after[0] != ',' then None
    else
      var tail := Split(after[1..], ',');
      if |tail| != 4 then None
      else Some(AnalyzedProduct(id, name, tail[0], tail[1], tail[2], tail[3]))
  }

  /** No field of the product holds a line break. */
  predicate NoLineBreak(p: AnalyzedProduct)
  {
    '\n' !in p.id && '\n' !in p.name && '\n' !in p.price && '\n' !in p.provider &&
    '\n' !in p.origin && '\n' !in p.productType
  }

  /** The export can be read back when no field holds a line break and the
      unquoted fields hold no ','. The name may hold anything but a line
      break: the quoting protects its commas and quotes. */
  predicate Plain(p: AnalyzedProduct)
  {
    NoLineBreak(p) &&
    ',' !in p.id && ',' !in p.price && ',' !in p.provider &&
    ',' !in p.origin && ',' !in p.productType
  }

  /** A product's line reads back as the product. */
  lemma ParseRowLine(p: AnalyzedProduct)
    requires Plain(p)
    ensures ParseRow(RowLine(p)) == Some(p)
  {
    var tail := [p.price, p.provider, p.origin, p.productType];
    RowLineShape(p);
    ParseRowOf(p.id, p.name, tail);
  }

  /** A line cut where the reader cuts it: the id, the quoted name, and the
      four remaining fields. */
  lemma RowLineShape(p: AnalyzedProduct)
    ensures RowLine(p) ==
      p.id + [','] + (QuoteName(p.name) + [','] + Join([p.price, p.provider, p.origin, p.productType], ','))
  {
    var q := QuoteName(p.name);
    var tail := [p.price, p.provider, p.origin, p.productType];
    JoinCons(p.id, [q] + tail, ',');
    JoinCons(q, tail, ',');
    assert [p.id] + ([q] + tail) == Fields(p);
  }

  /** The reader's steps on a line of that shape. */
  lemma ParseRowOf(id: string, name: string, tail: seq<string>)
    requires ',' !in id && |tail| == 4
    requires forall k :: 0 <= k < 4 ==> ',' !in tail[k]
    ensures ParseRow(id + [','] + (QuoteName(name) + [','] + Join(tail, ','))) ==
      Some(AnalyzedProduct(id, name, tail[0], tail[1], tail[2], tail[3]))
  {
    var after := [','] + Join(tail, ',');
    assert QuoteName(name) + [','] + Join(tail, ',') == QuoteName(name) + after;
    ReadId(id, QuoteName(name) + after);
    ReadName(id, name, after);
    ReadTail(id, name, tail);
  }

  /** The id is read up to the first ','. */
  lemma ReadId(id: string, rest: string)
    requires ',' !in id
    ensures ParseRow(id + [','] + rest) == ParseFromName(id, rest)
  {
    TakeUntilPrefix(id, ',', rest);
  }

  /** The quoted name is read back whatever it holds. */
  lemma ReadName(id: string, name: string, after: string)
    requires after == [] || after[0] != '"'
    ensures ParseFromName(id, QuoteName(name) + after) == ParseTail(id, name, after)
  {
    var rest := QuoteName(name) + after;
    assert rest[1..] == EscapeQuotes(name) + ['"'] + after;
    ReadQuotedEscaped(name, after);
  }

  /** The four remaining fields are read when none holds a ','. */
  lemma ReadTail(id: string, name: string, tail: seq<string>)
    requires |tail| == 4
    requires forall k :: 0 <= k < 4 ==> ',' !in tail[k]
    ensures ParseTail(id, name, [','] + Join(tail, ',')) ==
      Some(AnalyzedProduct(id, name, tail[0], tail[1], tail[2], tail[3]))
  {
    assert ([','] + Join(tail, ','))[1..] == Join(tail, ',');
    SplitJoin(tail, ',');
  }

  /** A product's line holds no line break. */
  lemma RowLineSingleLine(p: AnalyzedProduct)
    requires NoLineBreak(p)
    ensures '\n' !in RowLine(p)
  {
    EscapeExcludes(p.name, '\n');
    JoinExcludes(Fields(p), ',', '\n');
  }

  /** No line of the export, header included, holds a line break. */
  lemma LinesSingle(products: seq<AnalyzedProduct>)
    requires forall k :: 0 <= k < |products| ==> NoLineBreak(products[k])
    ensures var lines := [HeaderLine()] + Rows(products);
      forall k :: 0 <= k < |lines| ==> '\n' !in lines[k]
  {
    var lines := [HeaderLine()] + Rows(products);
    HeaderSingleLine();
    forall k | 0 <= k < |lines| ensures '\n' !in lines[k] {
      if k > 0 {
        RowLineSingleLine(products[k - 1]);
      }
    }
  }

  /** Reads the product lines one by one. */
  function ParseRows(lines: seq<string>): Option<seq<AnalyzedProduct>>
  {
    MapAll(lines, ParseRow)
  }

  /** Reads a whole export: a header line, then product lines. */
  function ReadCsv(text: string): Option<seq<AnalyzedProduct>>
  {
    var lines := Split(text, '\n');
    if lines[0] != HeaderLine() then None else ParseRows(lines[1..])
  }

  /** The product lines read back as the products, in order. */
  lemma ParseRowsOfRows(products: seq<AnalyzedProduct>)
    requires forall k :: 0 <= k < |products| ==> Plain(products[k])
    ensures ParseRows(Rows(products)) == Some(products)
  {
    var lines := Rows(products);
    forall k | 0 <= k < |lines| ensures ParseRow(lines[k]) == Some(products[k]) {
      ParseRowLine(products[k]);
    }
    MapAllSome(lines, products, ParseRow);
  }

  /** The export is the header line followed by one line per product, in
      order: `n` products give `n + 1` lines. */
  lemma CsvLines(products: seq<AnalyzedProduct>)
    requires forall k :: 0 <= k < |products| ==> NoLineBreak(products[k])
    ensures Split(CsvText(products), '\n') == [HeaderLine()] + Rows(products)
    ensures |Split(CsvText(products), '\n')| == |products| + 1
  {
    LinesSingle(products);
    SplitJoin([HeaderLine()] + Rows(products), '\n');
  }

  /** A non-empty export does not end with a line break. */
  lemma NoTrailingNewline(products: seq<AnalyzedProduct>)
    requires forall k :: 0 <= k < |products| ==> NoLineBreak(products[k])
    requires products != []
    ensures var text := CsvText(products); text != [] && text[|text| - 1] != '\n'
  {
    CsvLines(products);
    var text := CsvText(products);
    assert Last(Split(text, '\n')) == RowLine(products[|products| - 1]);
    var p := products[|products| - 1];
    JoinCons(p.id, Fields(p)[1..], ',');
    assert RowLine(p) != [];
    LastPieceEmpty(text, '\n');
  }

  /** Reading the export back gives the analysed products. */
  lemma CsvRoundTrip(products: seq<AnalyzedProduct>)
    requires forall k :: 0 <= k < |products| ==> Plain(products[k])
    ensures ReadCsv(CsvText(products)) == Some(products)
  {
    CsvLines(products);
    var lines := Split(CsvText(products), '\n');
    assert lines[1..] == Rows(products);
    ParseRowsOfRows(products);
  }

  /** The provider, origin and type names hold no ',' and no line break. */
  lemma MockNamesPlain(d: Draw)
    ensures ',' !in Providers[d.provider] && '\n' !in Providers[d.provider]
    ensures ',' !in Origins[d.origin] && '\n' !in Origins[d.origin]
    ensures ',' !in ProductTypes[d.productType] && '\n' !in ProductTypes[d.productType]
  {
  }

  /** A mocked price is '$' and digits. */
  lemma MockPricePlain(n: nat)
    ensures ',' !in "$" + DecimalString(n) && '\n' !in "$" + DecimalString(n)
  {
    var price := "$" + DecimalString(n);
    assert forall i :: 1 <= i < |price| ==> price[i] == DecimalString(n)[i - 1];
  }

  /** One mocked row is readable when its product's id and name are. */
  lemma MockRowPlain(p: Product, d: Draw)
    requires ',' !in p.id && '\n' !in p.id && '\n' !in p.name
    ensures Plain(AnalyzeOne(p, d))
  {
    MockNamesPlain(d);
    MockPricePlain(d.price + 100);
  }

  /** The mocked analysis only produces readable rows, as long as the extracted
      ids hold no ',' or line break and the names no line break. */
  lemma MockOutputReadsBack(products: seq<Product>, draws: nat -> Draw)
    requires forall k :: 0 <= k < |products| ==>
      ',' !in products[k].id && '\n' !in products[k].id && '\n' !in products[k].name
    ensures ReadCsv(CsvText(AnalyzeMock(products, draws))) == Some(AnalyzeMock(products, draws))
  {
    var r := AnalyzeMock(products, draws);
    forall k | 0 <= k < |r| ensures Plain(r[k]) {
      assert r[k] == AnalyzeOne(products[k], draws(k));
      MockRowPlain(products[k], draws(k));
    }
    CsvRoundTrip(r);
  }
}
