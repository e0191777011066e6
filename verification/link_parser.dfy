/** `parseLink`: one line of pasted text to a proxy descriptor, a silent
    rejection, or a rejection of a placeholder secret (the only one the
    script counts in `skippedCount`), and the parse of a whole input list.

    The browser's `URL` constructor and `URLSearchParams` are not modelled:
    they are the parameter `query`, a function from the cleaned line to the
    list of name/value pairs of its query string, or `None` when the URL
    constructor throws. */
module LinkParser {
  import opened Options
  import opened Strings
  import opened JsNumber
  import opened Seqs

  /** The name/value list of a `URLSearchParams` object, in order. */
  type QueryList = seq<(string, string)>

  /** `new URLSearchParams(new URL(text).search)`; `None` when `new URL`
      throws. */
  type UrlQuery = string -> Option<QueryList>

  const MaxPort := 65535
  const MaxSecretLength := 170
  /** Twenty `A`s: the filler that template links carry as their secret. */
  const PlaceholderRun := "AAAAAAAAAAAAAAAAAAAA"

  datatype Descriptor = Descriptor(server: string, port: int, secret: string, original: string)

  /** The three ways a line can end, made explicit instead of a `null`
      return plus a counter bump. */
  datatype ParseOutcome = Valid(descriptor: Descriptor) | Malformed | PlaceholderRejected

  /** `URLSearchParams.prototype.get`: the value of the first pair with that
      name. */
  function Get(q: QueryList, name: string): (r: Option<string>)
    ensures r.None? <==> forall k :: 0 <= k < |q| ==> q[k].0 != name
    ensures r.Some? ==> exists k :: 0 <= k < |q| && q[k] == (name, r.value)
    decreases |q|
  {
    if |q| == 0 then None
    else if q[0].0 == name then Some(q[0].1)
    else Get(q[1..], name)
  }

  /** A found value belongs to the first pair with that name: with
      `?server=a&server=b`, `get('server')` is "a". */
  lemma {:induction false} GetFirst(q: QueryList, name: string)
    ensures Get(q, name).Some? ==>
              exists k :: 0 <= k < |q| && q[k] == (name, Get(q, name).value)
                          && forall j :: 0 <= j < k ==> q[j].0 != name
    decreases |q|
  {
    if |q| > 0 && q[0].0 != name && Get(q, name).Some? {
      var rest := q[1..];
      GetFirst(rest, name);
      var k :| 0 <= k < |rest| && rest[k] == (name, Get(rest, name).value)
               && forall j :: 0 <= j < k ==> rest[j].0 != name;
      assert q[k + 1] == rest[k];
      assert forall j :: 0 < j < k + 1 ==> q[j] == rest[j - 1];
    }
  }

  /** The trimmed line with its first `.&` turned into `&`. */
  function CleanLink(line: string): string {
    ReplaceFirst(Trim(line), ".&", "&")
  }

  /** The cleaned link is the trimmed line with its first `.&`, and only
      that one, turned into `&`. */
  lemma CleanLinkSpec(line: string)
    ensures !Contains(Trim(line), ".&") ==> CleanLink(line) == Trim(line)
    ensures forall i :: IsFirstOccurrence(Trim(line), ".&", i) ==>
              CleanLink(line) == Trim(line)[..i] + "&" + Trim(line)[i + 2..]
  {
    ReplaceFirstSpec(Trim(line), ".&", "&");
  }

  /** Cleaning a line that has no line break cannot introduce one. */
  lemma CleanLinkSingleLine(line: string)
    requires '\n' !in line
    ensures '\n' !in CleanLink(line)
  {
    var t := Trim(line);
    assert forall i :: 0 <= i < |t| ==> t[i] in line;
    ReplaceFirstKeepsOut(t, ".&", "&", '\n');
  }

  /** `parseInt(params.get('port'))`: a missing parameter is `null`, which
      `parseInt` reads as the text "null". */
  function PortNumber(v: Option<string>): Number {
    ParseInt(ValueOr(v, "null"))
  }

  predicate IsPlaceholder(secret: string) {
    |secret| > MaxSecretLength || Contains(secret, PlaceholderRun)
  }

  /** What every descriptor that leaves the parser satisfies. */
  predicate WellFormed(d: Descriptor) {
    && d.server != ""
    && d.secret != ""
    && 1 <= d.port <= MaxPort
    && !IsPlaceholder(d.secret)
  }

  /** `clean` has a scheme separator and its query string carries `server`,
      `port` and `secret` with these values, the port read by `parseInt`. */
  predicate Extracted(clean: string, query: UrlQuery, server: string, port: int, secret: string) {
    && Contains(clean, "://")
    && query(clean).Some?
    && Get(query(clean).value, "server") == Some(server)
    && PortNumber(Get(query(clean).value, "port")) == Num(port)
    && Get(query(clean).value, "secret") == Some(secret)
  }

  /** The fields, when the line passes every check before the secret
      check: a `://`, a URL that parses, truthy `server`, `port` and
      `secret`, and a port in 1..65535. */
  function Fields(clean: string, query: UrlQuery): Option<(string, int, string)> {
    if !Contains(clean, "://") then None
    else match query(clean)
      case None => None
      case Some(q) =>
        var server := Get(q, "server");
        var port := PortNumber(Get(q, "port"));
        var secret := Get(q, "secret");
        if server.None? || server.value == "" || port.NaN? || port.value == 0
           || secret.None? || secret.value == "" then None
        else if port.value <= 0 || port.value > MaxPort then None
        else Some((server.value, port.value, secret.value))
  }

  /** Fields that pass the checks are the values the query string carries. */
  lemma FieldsExtracted(clean: string, query: UrlQuery)
    requires Fields(clean, query).Some?
    ensures var f := Fields(clean, query).value;
      && Extracted(clean, query, f.0, f.1, f.2)
      && f.0 != "" && f.2 != "" && 1 <= f.1 <= MaxPort
  {
    var q := query(clean).value;
    var port := PortNumber(Get(q, "port"));
    assert port.Num? && port == Num(port.value);
  }

  /** Values the query string carries pass the checks when the server and
      secret are non-empty and the port is in range. */
  lemma ExtractedFields(clean: string, query: UrlQuery, server: string, port: int, secret: string)
    requires Extracted(clean, query, server, port, secret)
    requires server != "" && secret != "" && 1 <= port <= MaxPort
    ensures Fields(clean, query) == Some((server, port, secret))
  {
    var q := query(clean).value;
    var p := PortNumber(Get(q, "port"));
    assert p == Num(port);
  }

  /** `parseLink(line)`. */
  function ParseLink(line: string, query: UrlQuery): ParseOutcome {
    var clean := CleanLink(line);
    match Fields(clean, query)
    case None => Malformed
    case Some((server, port, secret)) =>
      if IsPlaceholder(secret) then PlaceholderRejected
      else Valid(Descriptor(server, port, secret, clean))
  }

  /** A line without `://` is rejected silently; an accepted line yields a
      well-formed descriptor of its cleaned text, built from the values its
      query string carries. */
  lemma ParseLinkSpec(line: string, query: UrlQuery)
    ensures !Contains(CleanLink(line), "://") ==> ParseLink(line, query) == Malformed
    ensures var r := ParseLink(line, query);
      r.Valid? ==>
        && WellFormed(r.descriptor)
        && r.descriptor.original == CleanLink(line)
        && Extracted(CleanLink(line), query, r.descriptor.server, r.descriptor.port, r.descriptor.secret)
  {
    if Fields(CleanLink(line), query).Some? {
      FieldsExtracted(CleanLink(line), query);
    }
  }

  /** A line is accepted exactly as the descriptor built from its extracted
      fields, when those fields pass every check. */
  lemma ParseLinkValid(line: string, query: UrlQuery, d: Descriptor)
    ensures ParseLink(line, query) == Valid(d) <==>
              && d.original == CleanLink(line)
              && Extracted(CleanLink(line), query, d.server, d.port, d.secret)
              && WellFormed(d)
  {
    var clean := CleanLink(line);
    ParseLinkSpec(line, query);
    if d.original == clean && Extracted(clean, query, d.server, d.port, d.secret) && WellFormed(d) {
      ExtractedFields(clean, query, d.server, d.port, d.secret);
    }
  }

  /** A line is counted as a placeholder exactly when its fields pass every
      check but the secret one. */
  lemma ParseLinkPlaceholder(line: string, query: UrlQuery)
    ensures ParseLink(line, query) == PlaceholderRejected <==>
              exists server, port, secret ::
                && Extracted(CleanLink(line), query, server, port, secret)
                && server != "" && secret != "" && 1 <= port <= MaxPort
                && IsPlaceholder(secret)
  {
    var clean := CleanLink(line);
    if ParseLink(line, query) == PlaceholderRejected {
      FieldsExtracted(clean, query);
      var f := Fields(clean, query).value;
      assert Extracted(clean, query, f.0, f.1, f.2);
    } else {
      forall server, port, secret | Extracted(clean, query, server, port, secret)
        ensures !(server != "" && secret != "" && 1 <= port <= MaxPort && IsPlaceholder(secret))
      {
        if server != "" && secret != "" && 1 <= port <= MaxPort {
          ExtractedFields(clean, query, server, port, secret);
        }
      }
    }
  }

  /** `parseLink` with the global `skippedCount` made explicit: the counter
      goes up by one for a placeholder secret and is left alone otherwise. */
  function ParseLinkCounting(line: string, query: UrlQuery, skipped: nat): (r: (seq<Descriptor>, nat))
    ensures r.1 == skipped + 1 <==> ParseLink(line, query) == PlaceholderRejected
    ensures r.1 == skipped || r.1 == skipped + 1
    ensures r.0 != [] <==> ParseLink(line, query).Valid?
    ensures r.0 != [] ==> r.0 == [ParseLink(line, query).descriptor]
    ensures |r.0| + r.1 <= skipped + 1
  {
    var o := ParseLink(line, query);
    (Keep(o), skipped + Skip(o))
  }

  /** What `filter(l => l !== null)` keeps of one outcome. */
  function Keep(o: ParseOutcome): seq<Descriptor> {
    if o.Valid? then [o.descriptor] else []
  }

  /** What one outcome adds to `skippedCount`. */
  function Skip(o: ParseOutcome): nat {
    if o.PlaceholderRejected? then 1 else 0
  }

  /** `parseLink` with the URL parser fixed, as `lines.map` applies it. */
  function Parser(query: UrlQuery): string -> ParseOutcome {
    line => ParseLink(line, query)
  }

  /** `lines.map(parse).filter(l => l !== null)` for any line parser. */
  function Collect(lines: seq<string>, parse: string -> ParseOutcome): seq<Descriptor>
    decreases |lines|
  {
    if |lines| == 0 then []
    else Collect(lines[..|lines| - 1], parse) + Keep(parse(lines[|lines| - 1]))
  }

  /** The lines `parse` rejects for a placeholder secret. */
  function CountPlaceholders(lines: seq<string>, parse: string -> ParseOutcome): nat
    decreases |lines|
  {
    if |lines| == 0 then 0
    else CountPlaceholders(lines[..|lines| - 1], parse) + Skip(parse(lines[|lines| - 1]))
  }

  /** Reference definition of `lines.map(parseLink).filter(l => l !== null)`:
      the accepted descriptors, in line order. */
  function Accepted(lines: seq<string>, query: UrlQuery): seq<Descriptor> {
    Collect(lines, Parser(query))
  }

  /** Reference count of the lines rejected for a placeholder secret. */
  function PlaceholderCount(lines: seq<string>, query: UrlQuery): nat {
    CountPlaceholders(lines, Parser(query))
  }

  lemma CollectSnoc(lines: seq<string>, line: string, parse: string -> ParseOutcome)
    ensures Collect(lines + [line], parse) == Collect(lines, parse) + Keep(parse(line))
  {
    AppendPrefix(lines, [line]);
  }

  lemma CountPlaceholdersSnoc(lines: seq<string>, line: string, parse: string -> ParseOutcome)
    ensures CountPlaceholders(lines + [line], parse) == CountPlaceholders(lines, parse) + Skip(parse(line))
  {
    AppendPrefix(lines, [line]);
  }

  /** Parsing one more line of the input. */
  lemma ParsedStep(lines: seq<string>, i: nat, query: UrlQuery)
    requires i < |lines|
    ensures Accepted(lines[..i + 1], query) == Accepted(lines[..i], query) + Keep(ParseLink(lines[i], query))
    ensures PlaceholderCount(lines[..i + 1], query) == PlaceholderCount(lines[..i], query) + Skip(ParseLink(lines[i], query))
  {
    PrefixOfPrefix(lines, i, i + 1);
  }

  /** `skippedCount = 0; lines.map(parseLink).filter(l => l !== null)`,
      bumping the counter as each line is parsed. */
  method ParseAll(lines: seq<string>, query: UrlQuery) returns (valid: seq<Descriptor>, skipped: nat)
    ensures valid == Accepted(lines, query)
    ensures skipped == PlaceholderCount(lines, query)
    ensures |valid| + skipped <= |lines|
  {
    valid, skipped := [], 0;
    var i := 0;
    while i < |lines|
      invariant 0 <= i <= |lines|
      invariant valid == Accepted(lines[..i], query)
      invariant skipped == PlaceholderCount(lines[..i], query)
      invariant |valid| + skipped <= i
    {
      ParsedStep(lines, i, query);
      var r := ParseLinkCounting(lines[i], query, skipped);
      valid := valid + r.0;
      skipped := r.1;
      i := i + 1;
    }
    assert lines[..i] == lines;
  }

  lemma {:induction false} CollectAppend(a: seq<string>, b: seq<string>, parse: string -> ParseOutcome)
    ensures Collect(a + b, parse) == Collect(a, parse) + Collect(b, parse)
    decreases |b|
  {
    if |b| == 0 {
      assert a + b == a;
    } else {
      var b' := b[..|b| - 1];
      var last := b[|b| - 1];
      var x := Keep(parse(last));
      calc {
        Collect(a + b, parse);
        == { FrontLast(b); AppendLast(a, b', last); CollectSnoc(a + b', last, parse); }
        Collect(a + b', parse) + x;
        == { CollectAppend(a, b', parse); }
        Collect(a, parse) + Collect(b', parse) + x;
        == { FrontLast(b); CollectSnoc(b', last, parse); }
        Collect(a, parse) + Collect(b, parse);
      }
    }
  }

  lemma {:induction false} CountPlaceholdersAppend(a: seq<string>, b: seq<string>, parse: string -> ParseOutcome)
    ensures CountPlaceholders(a + b, parse) == CountPlaceholders(a, parse) + CountPlaceholders(b, parse)
    decreases |b|
  {
    if |b| == 0 {
      assert a + b == a;
    } else {
      var b' := b[..|b| - 1];
      var last := b[|b| - 1];
      FrontLast(b);
      AppendLast(a, b', last);
      CountPlaceholdersAppend(a, b', parse);
      CountPlaceholdersSnoc(a + b', last, parse);
      CountPlaceholdersSnoc(b', last, parse);
    }
  }

  /** Parsing two pieces of a list separately and concatenating gives the
      parse of the whole list: the filter keeps line order and each line is
      judged on its own. */
  lemma AcceptedAppend(a: seq<string>, b: seq<string>, query: UrlQuery)
    ensures Accepted(a + b, query) == Accepted(a, query) + Accepted(b, query)
  {
    CollectAppend(a, b, Parser(query));
  }

  /** The placeholder count of a concatenation is the sum of the counts. */
  lemma PlaceholderCountAppend(a: seq<string>, b: seq<string>, query: UrlQuery)
    ensures PlaceholderCount(a + b, query) == PlaceholderCount(a, query) + PlaceholderCount(b, query)
  {
    CountPlaceholdersAppend(a, b, Parser(query));
  }

  /** The descriptors parsed from the lines of a text carry single-line
      links. */
  lemma AcceptedSingleLine(input: string, query: UrlQuery)
    ensures forall d :: d in Accepted(Split(input, '\n'), query) ==> '\n' !in d.original
  {
    var lines := Split(input, '\n');
    SplitSpec(input, '\n');
    AcceptedFromLines(lines, query);
    forall d | d in Accepted(lines, query)
      ensures '\n' !in d.original
    {
      var i :| 0 <= i < |lines| && ParseLink(lines[i], query) == Valid(d);
      ParseLinkSpec(lines[i], query);
      CleanLinkSingleLine(lines[i]);
    }
  }

  /** Every collected descriptor is the parse of one of the lines. */
  lemma {:induction false} CollectFromLines(lines: seq<string>, parse: string -> ParseOutcome)
    ensures forall d :: d in Collect(lines, parse) ==>
              exists i :: 0 <= i < |lines| && parse(lines[i]) == Valid(d)
    decreases |lines|
  {
    if |lines| > 0 {
      var init := lines[..|lines| - 1];
      CollectFromLines(init, parse);
      forall d | d in Collect(lines, parse)
        ensures exists i :: 0 <= i < |lines| && parse(lines[i]) == Valid(d)
      {
        if d in Collect(init, parse) {
          var i :| 0 <= i < |init| && parse(init[i]) == Valid(d);
          assert lines[i] == init[i];
        } else {
          assert parse(lines[|lines| - 1]) == Valid(d);
        }
      }
    }
  }

  /** Every accepted descriptor is the parse of one of the lines. */
  lemma AcceptedFromLines(lines: seq<string>, query: UrlQuery)
    ensures forall d :: d in Accepted(lines, query) ==>
              exists i :: 0 <= i < |lines| && ParseLink(lines[i], query) == Valid(d)
  {
    CollectFromLines(lines, Parser(query));
    forall d | d in Accepted(lines, query)
      ensures exists i :: 0 <= i < |lines| && ParseLink(lines[i], query) == Valid(d)
    {
      var i :| 0 <= i < |lines| && Parser(query)(lines[i]) == Valid(d);
      assert ParseLink(lines[i], query) == Valid(d);
    }
  }

  /** Every descriptor that leaves the parser is well formed. */
  lemma AcceptedWellFormed(lines: seq<string>, query: UrlQuery)
    ensures forall d :: d in Accepted(lines, query) ==> WellFormed(d)
  {
    AcceptedFromLines(lines, query);
    forall d | d in Accepted(lines, query)
      ensures WellFormed(d)
    {
      var i :| 0 <= i < |lines| && ParseLink(lines[i], query) == Valid(d);
      ParseLinkSpec(lines[i], query);
    }
  }
}
