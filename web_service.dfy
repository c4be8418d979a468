/**
 * The Wi-Fi provisioning web service (src/web_service.rs): the
 * multipart/form-data parser `parse_form`, the request router and credential
 * update `process_http`, and the header-complete test of the socket loop.
 * The HTTP request line and headers come already parsed (httparse is not
 * part of this model); socket reads and writes are inputs and outcomes.
 */
module WebService {
  import opened Wrappers
  import opened RustStr
  import Storage

  const BLANK_LINE := "\r\n\r\n"
  const DISPOSITION := "Content-Disposition: form-data;"
  const MULTIPART := "multipart/form-data"
  const BOUNDARY_ATTR := "boundary="
  const NAME_ATTR := "name="
  const CONTENT_TYPE := "Content-Type"
  /** Capacity of both the piece vector and the result vector of `parse_form`. */
  const MAX_FIELDS: nat := 20

  datatype Header = Header(name: string, value: string)

  /** A form field: its name and its value. */
  type Field = (string, string)

  datatype FormError =
    | InvalidRequestFormat   // no blank line between head and body
    | NoContentType          // no header named exactly "Content-Type"
    | NotMultipart           // the content type is not multipart/form-data
    | NoBoundary             // no `boundary=` attribute
    | NoNameAttribute        // a form-data part without `name=`
    | TooManyFields          // the 21st field does not fit
    | NoValidFields          // the body holds no form-data part
    | SplitOverflow          // the body splits into more than 20 pieces: collecting them panics

  /** The index of the first header named exactly "Content-Type" (the match is case-sensitive). */
  function FirstContentType(headers: seq<Header>, from: nat): (r: Option<nat>)
    requires from <= |headers|
    ensures r.Some? ==> from <= r.value < |headers| && headers[r.value].name == CONTENT_TYPE
    ensures r.Some? ==> forall j :: from <= j < r.value ==> headers[j].name != CONTENT_TYPE
    ensures r.None? <==> forall j :: from <= j < |headers| ==> headers[j].name != CONTENT_TYPE
    decreases |headers| - from
  {
    if from == |headers| then None
    else if headers[from].name == CONTENT_TYPE then Some(from)
    else FirstContentType(headers, from + 1)
  }

  /** The boundary named by a Content-Type value, or why there is none. */
  function BoundaryOf(contentType: string): (r: Result<string, FormError>)
    ensures r == Err(NotMultipart) <==> !StartsWith(contentType, MULTIPART)
    ensures r == Err(NoBoundary) <==>
      StartsWith(contentType, MULTIPART) &&
      forall i :: 0 <= i < |Split(contentType, ";")| ==> !StartsWith(Trim(Split(contentType, ";")[i]), BOUNDARY_ATTR)
    ensures r.Ok? || r == Err(NotMultipart) || r == Err(NoBoundary)
  {
    if !StartsWith(contentType, MULTIPART) then Err(NotMultipart)
    else
      match FindMapStripPrefix(Split(contentType, ";"), BOUNDARY_ATTR)
      case None => Err(NoBoundary)
      case Some(b) => Ok(b)
  }

  /** What one piece of the body between boundaries contributes. */
  datatype Part = Skipped | Unnamed | Named(field: Field)

  /**
   * One piece of the body: kept only when, trimmed, it starts with the
   * Content-Disposition line and has a blank line after it; the name is the
   * unquoted `name=` attribute, the value what follows the blank line with
   * dashes and then whitespace stripped from both ends.
   */
  function ParsePart(piece: string): (p: Part)
    ensures p.Skipped? <==>
      !StartsWith(Trim(piece), DISPOSITION) || !Contains(Trim(piece)[|DISPOSITION|..], BLANK_LINE)
    ensures p.Named? ==> CleanField(p.field)
  {
    DispositionPart(Trim(piece))
  }

  /** A trimmed piece: it must start with the Content-Disposition line. */
  function DispositionPart(field: string): (p: Part)
    ensures p.Skipped? <==>
      !StartsWith(field, DISPOSITION) || !Contains(field[|DISPOSITION|..], BLANK_LINE)
    ensures p.Named? ==> CleanField(p.field)
  {
    if !Contains(field, DISPOSITION) then Skipped
    else
      match StripPrefix(field, DISPOSITION)
      case None => Skipped
      case Some(rest) => AttributesPart(rest)
  }

  /** What follows the Content-Disposition line: attributes, a blank line, the value. */
  function AttributesPart(rest: string): (p: Part)
    ensures p.Skipped? <==> !Contains(rest, BLANK_LINE)
    ensures p.Named? ==> CleanField(p.field)
  {
    match SplitOnce(rest, BLANK_LINE)
    case None => Skipped
    case Some((attrs, body)) => NamedPart(attrs, body)
  }

  /** The field named by the `name=` attribute, holding the cleaned value. */
  function NamedPart(attrs: string, body: string): (p: Part)
    ensures !p.Skipped?
    ensures p.Named? ==> CleanField(p.field)
  {
    match FindMapStripPrefix(Split(attrs, ";"), NAME_ATTR)
    case None => Unnamed
    case Some(name) =>
      var value := Trim(TrimMatches(body, '-'));
      TrimEndsClean(TrimMatches(body, '-'));
      Named((TrimMatches(name, '"'), value))
  }

  /** The result of `trim` neither starts nor ends with whitespace. */
  lemma TrimEndsClean(s: string)
    ensures var t := Trim(s); t == [] || (!IsWhitespace(t[0]) && !IsWhitespace(t[|t| - 1]))
  {
    var a := TrimStart(s);
    var t := TrimEnd(a);
    if t != [] {
      TrimEndPrefix(a);
      assert t[0] == a[0];
    }
  }

  /** A field whose name carries no quotes at its ends and whose value carries no whitespace at its ends. */
  predicate CleanField(f: Field) {
    && (f.0 == [] || (f.0[0] != '"' && f.0[|f.0| - 1] != '"'))
    && (f.1 == [] || (!IsWhitespace(f.1[0]) && !IsWhitespace(f.1[|f.1| - 1])))
  }

  /** `f` applied to every element, in order. */
  function Map<A, B>(f: A -> B, s: seq<A>): (r: seq<B>)
    ensures |r| == |s| && forall i :: 0 <= i < |s| ==> r[i] == f(s[i])
  {
    seq(|s|, i requires 0 <= i < |s| => f(s[i]))
  }

  lemma MapConcat<A, B>(f: A -> B, a: seq<A>, b: seq<A>)
    ensures Map(f, a + b) == Map(f, a) + Map(f, b)
  {
  }

  lemma MapIs<A, B>(f: A -> B, s: seq<A>, want: seq<B>)
    requires |s| == |want| && forall i :: 0 <= i < |s| ==> f(s[i]) == want[i]
    ensures Map(f, s) == want
  {
  }

  /** Every piece of the body, parsed. */
  function Parts(pieces: seq<string>): (ps: seq<Part>)
    ensures |ps| == |pieces| && CleanParts(ps)
  {
    Map(ParsePart, pieces)
  }

  /** Every named part carries a clean field. */
  predicate CleanParts(parts: seq<Part>) {
    forall i :: 0 <= i < |parts| && parts[i].Named? ==> CleanField(parts[i].field)
  }

  /** The parts' fields appended to `acc`, in order; an unnamed part, or a field beyond the 20th, is an error. */
  function CollectFields(acc: seq<Field>, parts: seq<Part>): (r: Result<seq<Field>, FormError>)
    requires CleanParts(parts)
    ensures r.Ok? ==> acc <= r.value && |r.value| <= |acc| + |parts|
    ensures r.Ok? ==> forall i :: |acc| <= i < |r.value| ==> CleanField(r.value[i])
    ensures r.Err? ==> r.error == NoNameAttribute || r.error == TooManyFields
    ensures |acc| + |parts| <= MAX_FIELDS ==> r != Err(TooManyFields)
    decreases |parts|
  {
    if parts == [] then Ok(acc)
    else
      match parts[0]
      case Skipped => CollectFields(acc, parts[1..])
      case Unnamed => Err(NoNameAttribute)
      case Named(f) =>
        if |acc| == MAX_FIELDS then Err(TooManyFields) else CollectFields(acc + [f], parts[1..])
  }

  /** The fields of the body's pieces: at most 20 pieces fit, and at least one field must be found. */
  function FieldsOf(pieces: seq<string>): (r: Result<seq<Field>, FormError>)
    ensures r != Err(TooManyFields)
    ensures r.Ok? ==> 1 <= |r.value| <= |pieces| <= MAX_FIELDS
    ensures r.Ok? ==> forall i :: 0 <= i < |r.value| ==> CleanField(r.value[i])
  {
    if |pieces| > MAX_FIELDS then Err(SplitOverflow) else FieldsOfParts(Parts(pieces))
  }

  /** The fields of the parsed parts; there must be at least one. */
  function FieldsOfParts(parts: seq<Part>): (r: Result<seq<Field>, FormError>)
    requires CleanParts(parts)
    ensures |parts| <= MAX_FIELDS ==> r != Err(TooManyFields)
    ensures r.Ok? ==> 1 <= |r.value| <= |parts|
    ensures r.Ok? ==> forall i :: 0 <= i < |r.value| ==> CleanField(r.value[i])
  {
    match CollectFields([], parts)
    case Err(e) => Err(e)
    case Ok(fields) => if fields == [] then Err(NoValidFields) else Ok(fields)
  }

  /** `parse_form` as a function of the parsed headers and the whole request text. */
  function Form(headers: seq<Header>, buffer: string): (r: Result<seq<Field>, FormError>)
    ensures r != Err(TooManyFields)
    ensures r.Ok? ==> 1 <= |r.value| <= MAX_FIELDS
    ensures r.Ok? ==> forall i :: 0 <= i < |r.value| ==> CleanField(r.value[i])
  {
    match SplitOnce(buffer, BLANK_LINE)
    case None => Err(InvalidRequestFormat)
    case Some((_, body)) =>
      match FirstContentType(headers, 0)
      case None => Err(NoContentType)
      case Some(h) =>
        match BoundaryOf(headers[h].value)
        case Err(e) => Err(e)
        case Ok(boundary) => FieldsOf(Split(body, boundary))
  }

  /** The body is what follows the first blank line; without one the request is rejected. */
  lemma FormNeedsBlankLine(headers: seq<Header>, buffer: string)
    ensures !Contains(buffer, BLANK_LINE) <==> Form(headers, buffer) == Err(InvalidRequestFormat)
    ensures Contains(buffer, BLANK_LINE) ==>
      var (head, body) := SplitOnce(buffer, BLANK_LINE).value;
      buffer == head + BLANK_LINE + body && !Contains(head + BLANK_LINE[..3], BLANK_LINE)
  {
    if Contains(buffer, BLANK_LINE) {
      var (head, body) := SplitOnce(buffer, BLANK_LINE).value;
      var h3 := head + BLANK_LINE[..3];
      forall j | 0 <= j ensures !OccursAt(h3, BLANK_LINE, j) {
        if OccursAt(h3, BLANK_LINE, j) {
          assert h3[j..j + 4] == buffer[j..j + 4];
          assert OccursAt(buffer, BLANK_LINE, j);
        }
      }
    }
  }

  /** The Content-Type header must exist and name multipart/form-data with a boundary. */
  lemma FormContentTypeErrors(headers: seq<Header>, buffer: string)
    requires Contains(buffer, BLANK_LINE)
    ensures (forall i :: 0 <= i < |headers| ==> headers[i].name != CONTENT_TYPE) <==>
      Form(headers, buffer) == Err(NoContentType)
    ensures (exists i :: 0 <= i < |headers| && headers[i].name == CONTENT_TYPE &&
               !StartsWith(headers[i].value, MULTIPART) &&
               forall j :: 0 <= j < i ==> headers[j].name != CONTENT_TYPE)
      ==> Form(headers, buffer) == Err(NotMultipart)
  {
    if i :| 0 <= i < |headers| && headers[i].name == CONTENT_TYPE && !StartsWith(headers[i].value, MULTIPART) &&
           forall j :: 0 <= j < i ==> headers[j].name != CONTENT_TYPE {
      var h := FirstContentType(headers, 0);
      assert h == Some(i);
    }
  }

  // ---------------------------------------------------------------------------
  // Round trip: a body laid out as RFC 7578 section 4.1 describes (each part
  // introduced by a "--boundary" delimiter line, the last delimiter followed
  // by "--") gives back its fields unchanged and in order.

  /** The text between two boundary strings that carries field `f`. */
  function PartText(f: Field): string {
    "\r\n" + DISPOSITION + " name=\"" + f.0 + "\"" + BLANK_LINE + f.1 + "\r\n--"
  }

  /** The pieces of a multipart body between its boundary strings, in order. */
  function BodyPieces(fields: seq<Field>): (ps: seq<string>)
    ensures |ps| == |fields| + 2
  {
    ["--"] + FieldTexts(fields) + ["--\r\n"]
  }

  /** "--b\r\n<part 1>\r\n--b\r\n<part 2>...\r\n--b--\r\n" */
  function MultipartBody(boundary: string, fields: seq<Field>): string {
    Join(BodyPieces(fields), boundary)
  }

  /** A name the parser returns as is: no quote, `;` or carriage return in it. */
  predicate PlainName(k: string) {
    forall i :: 0 <= i < |k| ==> k[i] != '"' && k[i] != ';' && k[i] != '\r'
  }

  /** A value the parser returns as is: no leading dash and no whitespace at either end. */
  predicate PlainValue(v: string) {
    v == [] || (v[0] != '-' && !IsWhitespace(v[0]) && !IsWhitespace(v[|v| - 1]))
  }

  /** A boundary the Content-Type value yields back: non-empty, no `;`, no trailing whitespace. */
  predicate PlainBoundary(b: string) {
    |b| > 0 && !IsWhitespace(b[|b| - 1]) && forall i :: 0 <= i < |b| ==> b[i] != ';'
  }

  /** The boundary string occurs in the body only where it delimits the parts. */
  predicate DelimitsOnly(b: string, fields: seq<Field>) {
    && SeparatorFree("--", b)
    && (forall i :: 0 <= i < |fields| ==> SeparatorFree(PartText(fields[i]), b))
    && !Contains("--\r\n", b)
  }

  lemma TrimLeadingCrLf(s: string)
    requires |s| > 0 && !IsWhitespace(s[0]) && !IsWhitespace(s[|s| - 1])
    ensures Trim("\r\n" + s) == s
  {
    var t := "\r\n" + s;
    assert t[0] == '\r' && t[1..][0] == '\n';
    assert TrimStart(t) == TrimStart(t[1..]);
    assert TrimStart(t[1..]) == TrimStart(t[1..][1..]);
    assert t[1..][1..] == s;
    TrimUnchanged(s);
  }

  lemma TrimTrailingCrLf(v: string)
    requires PlainValue(v)
    ensures Trim(v + "\r\n") == v
  {
    var t := v + "\r\n";
    if v == [] {
      assert t == "\r\n";
      assert TrimStart(t) == TrimStart(t[1..]);
      assert t[1..][0] == '\n';
      assert TrimStart(t[1..]) == TrimStart(t[1..][1..]);
      assert t[1..][1..] == [];
    } else {
      assert t[0] == v[0];
      assert TrimStart(t) == t;
      var u := t[..|t| - 1];
      assert t[|t| - 1] == '\n' && u == v + "\r";
      assert TrimEnd(t) == TrimEnd(u);
      assert u[|u| - 1] == '\r' && u[..|u| - 1] == v;
      assert TrimEnd(u) == TrimEnd(v);
      assert TrimEnd(v) == v;
    }
  }

  lemma TrimDashes(v: string)
    requires v == [] || v[0] != '-'
    ensures TrimMatches(v + "\r\n--", '-') == v + "\r\n"
  {
    var t := v + "\r\n--";
    var u := v + "\r\n-";
    var w := v + "\r\n";
    assert t[0] != '-' && t[|t| - 1] == '-' && t[..|t| - 1] == u;
    assert TrimMatches(t, '-') == TrimMatches(u, '-');
    assert u[0] != '-' && u[|u| - 1] == '-' && u[..|u| - 1] == w;
    assert TrimMatches(u, '-') == TrimMatches(w, '-');
    assert w[0] != '-' && w[|w| - 1] == '\n';
    assert TrimMatches(w, '-') == w;
  }

  lemma TrimQuotes(k: string)
    requires PlainName(k)
    ensures TrimMatches("\"" + k + "\"", '"') == k
  {
    var t := "\"" + k + "\"";
    var u := k + "\"";
    assert t[0] == '"' && t[1..] == u;
    assert TrimMatches(t, '"') == TrimMatches(u, '"');
    if k == [] {
      assert u == "\"" && u[1..] == [];
      assert TrimMatches(u, '"') == TrimMatches(u[1..], '"');
    } else {
      assert u[0] == k[0] && u[|u| - 1] == '"' && u[..|u| - 1] == k;
      assert TrimMatches(u, '"') == TrimMatches(k, '"');
      TrimMatchesUnchanged(k, '"');
    }
  }

  /** The Content-Disposition attributes of `PartText((k, _))`. */
  function NameAttrs(k: string): string {
    " name=\"" + k + "\""
  }

  lemma StripDisposition(rest: string)
    ensures Contains(DISPOSITION + rest, DISPOSITION)
    ensures StripPrefix(DISPOSITION + rest, DISPOSITION) == Some(rest)
  {
    assert OccursAt(DISPOSITION + rest, DISPOSITION, 0);
  }

  lemma SplitAttrs(k: string, body: string)
    requires PlainName(k)
    ensures SplitOnce(NameAttrs(k) + BLANK_LINE + body, BLANK_LINE) == Some((NameAttrs(k), body))
  {
    NoLeadSeparatorFree(NameAttrs(k), BLANK_LINE);
    SplitOnceFirst(NameAttrs(k), BLANK_LINE, body);
  }

  lemma NameOfAttrs(k: string)
    requires PlainName(k)
    ensures FindMapStripPrefix(Split(NameAttrs(k), ";"), NAME_ATTR) == Some("\"" + k + "\"")
  {
    var attrs := NameAttrs(k);
    var quoted := "\"" + k + "\"";
    NoCharNotContains(attrs, ';');
    SplitAbsent(attrs, ";");
    assert attrs == " " + (NAME_ATTR + quoted);
    TrimLeadingSpace(NAME_ATTR + quoted);
    assert StartsWith(NAME_ATTR + quoted, NAME_ATTR);
    assert FirstWithPrefix([attrs], NAME_ATTR, 0) == Some(0);
    assert (NAME_ATTR + quoted)[|NAME_ATTR|..] == quoted;
  }

  /** A browser-style part parses to its own field. */
  lemma NamedPartText(k: string, v: string)
    requires PlainName(k) && PlainValue(v)
    ensures NamedPart(NameAttrs(k), v + "\r\n--") == Named((k, v))
  {
    NameOfAttrs(k);
    TrimQuotes(k);
    TrimDashes(v);
    TrimTrailingCrLf(v);
  }

  lemma AttributesPartText(k: string, v: string)
    requires PlainName(k) && PlainValue(v)
    ensures AttributesPart(NameAttrs(k) + BLANK_LINE + (v + "\r\n--")) == Named((k, v))
  {
    SplitAttrs(k, v + "\r\n--");
    NamedPartText(k, v);
  }

  lemma DispositionPartText(k: string, v: string)
    requires PlainName(k) && PlainValue(v)
    ensures DispositionPart(DISPOSITION + (NameAttrs(k) + BLANK_LINE + (v + "\r\n--"))) == Named((k, v))
  {
    StripDisposition(NameAttrs(k) + BLANK_LINE + (v + "\r\n--"));
    AttributesPartText(k, v);
  }

  /** A browser-style part parses to its own field. */
  lemma ParsePartText(f: Field)
    requires PlainName(f.0) && PlainValue(f.1)
    ensures ParsePart(PartText(f)) == Named(f)
  {
    var (k, v) := f;
    var field := DISPOSITION + (NameAttrs(k) + BLANK_LINE + (v + "\r\n--"));
    assert PartText(f) == "\r\n" + field;
    TrimLeadingCrLf(field);
    DispositionPartText(k, v);
  }

  lemma TrimLeadingSpace(s: string)
    requires |s| > 0 && !IsWhitespace(s[0]) && !IsWhitespace(s[|s| - 1])
    ensures Trim(" " + s) == s
  {
    assert (" " + s)[1..] == s;
    TrimUnchanged(s);
  }

  /** The piece before the first delimiter carries nothing. */
  lemma ParseOpening()
    ensures ParsePart("--") == Skipped
  {
    assert Trim("--") == "--";
    assert !Contains("--", DISPOSITION);
  }

  /** The piece after the closing delimiter carries nothing. */
  lemma ParseClosing()
    ensures ParsePart("--\r\n") == Skipped
  {
    var t := "--\r\n";
    assert TrimStart(t) == t;
    assert t[..3] == "--\r";
    assert TrimEnd(t) == TrimEnd("--\r");
    assert "--\r"[..2] == "--";
    assert TrimEnd("--\r") == TrimEnd("--");
    assert Trim(t) == "--";
    assert !Contains("--", DISPOSITION);
  }

  /** Every field as a named part. */
  function NamedParts(fields: seq<Field>): (ps: seq<Part>)
    ensures |ps| == |fields|
  {
    seq(|fields|, i requires 0 <= i < |fields| => Named(fields[i]))
  }

  predicate PlainFields(fields: seq<Field>) {
    forall i :: 0 <= i < |fields| ==> PlainName(fields[i].0) && PlainValue(fields[i].1)
  }

  /** The pieces that carry the fields, one per field. */
  function FieldTexts(fields: seq<Field>): (ts: seq<string>)
    ensures |ts| == |fields|
  {
    seq(|fields|, i requires 0 <= i < |fields| => PartText(fields[i]))
  }

  lemma PartsOfTexts(fields: seq<Field>)
    requires PlainFields(fields)
    ensures Parts(FieldTexts(fields)) == NamedParts(fields)
  {
    var ts := FieldTexts(fields);
    forall i | 0 <= i < |ts| ensures ParsePart(ts[i]) == NamedParts(fields)[i] {
      ParsePartText(fields[i]);
    }
    MapIs(ParsePart, ts, NamedParts(fields));
  }

  lemma PartsDelimiters()
    ensures Parts(["--"]) == [Skipped] && Parts(["--\r\n"]) == [Skipped]
  {
    ParseOpening();
    ParseClosing();
    MapIs(ParsePart, ["--"], [Skipped]);
    MapIs(ParsePart, ["--\r\n"], [Skipped]);
  }

  /** The pieces of a multipart body parse to its fields, framed by two empty pieces. */
  lemma PartsOfBody(fields: seq<Field>)
    requires PlainFields(fields)
    ensures Parts(BodyPieces(fields)) == [Skipped] + NamedParts(fields) + [Skipped]
  {
    assert BodyPieces(fields) == ["--"] + FieldTexts(fields) + ["--\r\n"];
    MapConcat(ParsePart, ["--"] + FieldTexts(fields), ["--\r\n"]);
    MapConcat(ParsePart, ["--"], FieldTexts(fields));
    PartsOfTexts(fields);
    PartsDelimiters();
  }

  /** Named parts are collected in order, up to the capacity of the result vector. */
  lemma {:induction false} CollectNamed(acc: seq<Field>, fields: seq<Field>)
    requires |acc| + |fields| <= MAX_FIELDS && PlainFields(fields)
    ensures CleanParts(NamedParts(fields) + [Skipped])
    ensures CollectFields(acc, NamedParts(fields) + [Skipped]) == Ok(acc + fields)
    decreases |fields|
  {
    var ps := NamedParts(fields) + [Skipped];
    forall i | 0 <= i < |ps| && ps[i].Named? ensures CleanField(ps[i].field) {
      var (k, v) := fields[i];
      assert PlainName(k) && PlainValue(v);
    }
    if fields == [] {
      assert ps == [Skipped] && ps[1..] == [];
      assert CollectFields(acc, ps) == CollectFields(acc, ps[1..]);
      assert acc + fields == acc;
    } else {
      assert ps[0] == Named(fields[0]);
      assert ps[1..] == NamedParts(fields[1..]) + [Skipped];
      CollectNamed(acc + [fields[0]], fields[1..]);
      assert acc + [fields[0]] + fields[1..] == acc + fields;
    }
  }

  /** Splitting a multipart body on its boundary gives back its pieces. */
  lemma SplitBody(boundary: string, fields: seq<Field>)
    requires PlainBoundary(boundary) && DelimitsOnly(boundary, fields)
    ensures Split(MultipartBody(boundary, fields), boundary) == BodyPieces(fields)
  {
    var ps := BodyPieces(fields);
    forall i | 0 <= i < |ps| - 1 ensures SeparatorFree(ps[i], boundary) {
      if i > 0 {
        assert ps[i] == PartText(fields[i - 1]);
      }
    }
    SplitJoin(ps, boundary);
  }

  /** The parts of a multipart body yield its fields. */
  lemma FieldsOfBodyParts(fields: seq<Field>)
    requires 1 <= |fields| <= MAX_FIELDS - 2 && PlainFields(fields)
    ensures CleanParts([Skipped] + NamedParts(fields) + [Skipped])
    ensures FieldsOfParts([Skipped] + NamedParts(fields) + [Skipped]) == Ok(fields)
  {
    CollectNamed([], fields);
    var parts := [Skipped] + NamedParts(fields) + [Skipped];
    assert parts[0] == Skipped && parts[1..] == NamedParts(fields) + [Skipped];
    assert CollectFields([], parts) == CollectFields([], parts[1..]);
    assert CollectFields([], parts) == Ok(fields) by {
      assert [] + fields == fields;
    }
  }

  /** The pieces of a multipart body yield its fields. */
  lemma FieldsOfBody(fields: seq<Field>)
    requires 1 <= |fields| <= MAX_FIELDS - 2 && PlainFields(fields)
    ensures FieldsOf(BodyPieces(fields)) == Ok(fields)
  {
    PartsOfBody(fields);
    FieldsOfBodyParts(fields);
  }

  /** The whole request of a browser submitting `fields` as multipart/form-data. */
  function MultipartRequest(head: string, boundary: string, fields: seq<Field>): string {
    head + BLANK_LINE + MultipartBody(boundary, fields)
  }

  function MultipartHeader(boundary: string): Header {
    Header(CONTENT_TYPE, MULTIPART + "; " + BOUNDARY_ATTR + boundary)
  }

  lemma ContentTypePieces(b: string)
    requires PlainBoundary(b)
    ensures Split(MultipartHeader(b).value, ";") == [MULTIPART, " " + (BOUNDARY_ATTR + b)]
  {
    var attr := " " + (BOUNDARY_ATTR + b);
    assert Join([MULTIPART, attr], ";") == MULTIPART + ";" + attr;
    assert MultipartHeader(b).value == MULTIPART + ";" + attr;
    NoLeadSeparatorFree(MULTIPART, ";");
    NoCharNotContains(attr, ';');
    SplitJoin([MULTIPART, attr], ";");
  }

  lemma BoundaryPiece(b: string)
    requires PlainBoundary(b)
    ensures FindMapStripPrefix([MULTIPART, " " + (BOUNDARY_ATTR + b)], BOUNDARY_ATTR) == Some(b)
  {
    var attr := BOUNDARY_ATTR + b;
    var ps := [MULTIPART, " " + attr];
    TrimUnchanged(MULTIPART);
    assert MULTIPART[..|BOUNDARY_ATTR|][0] != BOUNDARY_ATTR[0];
    assert !StartsWith(Trim(ps[0]), BOUNDARY_ATTR);
    TrimLeadingSpace(attr);
    assert attr[..|BOUNDARY_ATTR|] == BOUNDARY_ATTR;
    assert StartsWith(Trim(ps[1]), BOUNDARY_ATTR);
    assert FirstWithPrefix(ps, BOUNDARY_ATTR, 0) == Some(1);
    assert attr[|BOUNDARY_ATTR|..] == b;
  }

  lemma BoundaryRoundTrip(b: string)
    requires PlainBoundary(b)
    ensures BoundaryOf(MultipartHeader(b).value) == Ok(b)
  {
    ContentTypePieces(b);
    BoundaryPiece(b);
    var v := MultipartHeader(b).value;
    assert v[..|MULTIPART|] == MULTIPART;
  }

  /**
   * Round trip of `parse_form`: up to 18 plain fields sent in a multipart
   * body whose boundary appears only as a delimiter come back unchanged and
   * in body order.
   */
  lemma FormRoundTrip(head: string, boundary: string, fields: seq<Field>)
    requires SeparatorFree(head, BLANK_LINE)
    requires PlainBoundary(boundary) && DelimitsOnly(boundary, fields)
    requires 1 <= |fields| <= MAX_FIELDS - 2 && PlainFields(fields)
    ensures Form([MultipartHeader(boundary)], MultipartRequest(head, boundary, fields)) == Ok(fields)
  {
    SplitOnceFirst(head, BLANK_LINE, MultipartBody(boundary, fields));
    assert FirstContentType([MultipartHeader(boundary)], 0) == Some(0);
    BoundaryRoundTrip(boundary);
    SplitBody(boundary, fields);
    FieldsOfBody(fields);
  }

  /** `parse_form`: the head and boundary checks, then the loop over the body's pieces. */
  method ParseForm(headers: seq<Header>, buffer: string) returns (r: Result<seq<Field>, FormError>)
    ensures r == Form(headers, buffer)
  {
    var split := SplitOnce(buffer, BLANK_LINE);
    if split.None? {
      return Err(InvalidRequestFormat);
    }
    var body := split.value.1;
    var h := FirstContentType(headers, 0);
    if h.None? {
      return Err(NoContentType);
    }
    var boundary := BoundaryOf(headers[h.value].value);
    if boundary.Err? {
      return Err(boundary.error);
    }
    r := CollectPieces(Split(body, boundary.value));
  }

  /** The loop of `parse_form`: each named part is pushed into a vector of capacity 20. */
  method CollectPieces(pieces: seq<string>) returns (r: Result<seq<Field>, FormError>)
    ensures r == FieldsOf(pieces)
  {
    if |pieces| > MAX_FIELDS {
      return Err(SplitOverflow);
    }
    ghost var parts := Parts(pieces);
    var result: seq<Field> := [];
    var i := 0;
    while i < |pieces|
      invariant 0 <= i <= |pieces| && |result| <= i
      invariant CollectFields(result, parts[i..]) == CollectFields([], parts)
    {
      assert parts[i..][1..] == parts[i + 1..];
      var part := ParsePart(pieces[i]);
      assert part == parts[i..][0];
      match part {
        case Skipped =>
        case Unnamed =>
          return Err(NoNameAttribute);
        case Named(f) =>
          if |result| == MAX_FIELDS {
            return Err(TooManyFields);
          }
          result := result + [f];
      }
      i := i + 1;
    }
    assert parts[i..] == [];
    if result == [] {
      return Err(NoValidFields);
    }
    return Ok(result);
  }

  // ---------------------------------------------------------------------------
  // process_http: routing and the credential update.

  const OK_HEAD := "HTTP/1.0 200 OK\r\n\r\n"
  const RESTART_PAGE := OK_HEAD +
    "<html><body><form action='/restart' method='POST'><br/><br/>" +
    "<input type='submit' value='' /></form></body></html>\r\n"
  /** Byte capacity of the stored SSID and password (heapless::String<32>). */
  const CREDENTIAL_CAPACITY: nat := 32

  /** What httparse made of the request line and headers. */
  datatype HttpRequest = HttpRequest(verb: Option<string>, path: Option<string>, headers: seq<Header>)

  /** The two pages the service writes. */
  datatype Page = ConfigPage(html: string) | RestartPage

  function PageText(p: Page): string {
    match p
    case ConfigPage(html) => OK_HEAD + html
    case RestartPage => RESTART_PAGE
  }

  datatype HttpOutcome =
    | Replied(page: Page)         // written to the socket
    | NoReply
    | Reset                       // credentials stored, then software reset
    | Panicked                    // an `unwrap` failed

  /** The value of the last field named `key`. */
  function LastValue(fields: seq<Field>, key: string): (r: Option<string>)
    ensures r.None? <==> forall i :: 0 <= i < |fields| ==> fields[i].0 != key
    ensures r.Some? ==> exists i :: 0 <= i < |fields| && fields[i] == (key, r.value)
    decreases |fields|
  {
    if fields == [] then None
    else if fields[|fields| - 1].0 == key then Some(fields[|fields| - 1].1)
    else
      LastValue(fields[..|fields| - 1], key)
  }

  /** A later field of the same name overrides every earlier one. */
  lemma {:induction false} LastValueWins(pre: seq<Field>, key: string, value: string, post: seq<Field>)
    requires forall j :: 0 <= j < |post| ==> post[j].0 != key
    ensures LastValue(pre + [(key, value)] + post, key) == Some(value)
    decreases |post|
  {
    var all := pre + [(key, value)] + post;
    if post != [] {
      assert all[..|all| - 1] == pre + [(key, value)] + post[..|post| - 1];
      LastValueWins(pre, key, value, post[..|post| - 1]);
    }
  }

  /**
   * The Wi-Fi record after the form's credentials are stored in it: the last
   * `ssid` and the last `password` win and mark the record finished; a
   * missing field, or one longer than 32 bytes, makes an `unwrap` panic.
   */
  function Credentials(fields: seq<Field>): (r: Option<Storage.WifiStorage>)
    ensures r.Some? <==>
      && LastValue(fields, "ssid").Some? && Utf8Len(LastValue(fields, "ssid").value) <= CREDENTIAL_CAPACITY
      && LastValue(fields, "password").Some? && Utf8Len(LastValue(fields, "password").value) <= CREDENTIAL_CAPACITY
    ensures r.Some? ==> r.value.finish
    ensures r.Some? ==> (exists i :: 0 <= i < |fields| && fields[i] == ("ssid", r.value.ssid))
    ensures r.Some? ==> (exists i :: 0 <= i < |fields| && fields[i] == ("password", r.value.password))
  {
    var ssid := LastValue(fields, "ssid");
    var password := LastValue(fields, "password");
    if ssid.None? || Utf8Len(ssid.value) > CREDENTIAL_CAPACITY then None
    else if password.None? || Utf8Len(password.value) > CREDENTIAL_CAPACITY then None
    else Some(Storage.WifiStorage(ssid.value, password.value, true))
  }

  predicate IsGetConfig(req: HttpRequest) {
    req.verb == Some("GET") && req.path == Some("/config")
  }

  predicate IsConfigureWifi(req: HttpRequest) {
    req.verb == Some("POST") && req.path == Some("/configure_wifi")
  }

  /** The outcome of `process_http` given the current `WIFI_INFO`. */
  function Respond(info: Option<Storage.WifiStorage>, req: HttpRequest, buffer: string, configHtml: string): HttpOutcome {
    if IsGetConfig(req) then Replied(ConfigPage(configHtml))
    else if IsConfigureWifi(req) then
      match Form(req.headers, buffer)
      case Err(SplitOverflow) => Panicked
      case Err(_) => NoReply
      case Ok(fields) => Store(info, fields)
    else NoReply
  }

  /** The outcome of a parsed form: without `WIFI_INFO` the restart page, else the reset after the write, or a panic on a missing or oversized field. */
  function Store(info: Option<Storage.WifiStorage>, fields: seq<Field>): HttpOutcome {
    if info.None? then Replied(RestartPage)
    else if Credentials(fields).None? then Panicked
    else Reset
  }

  /** Only GET /config serves the page; any request that is neither route writes nothing. */
  lemma RoutesOnly(info: Option<Storage.WifiStorage>, req: HttpRequest, buffer: string, configHtml: string)
    ensures IsGetConfig(req) <==> Respond(info, req, buffer, configHtml) == Replied(ConfigPage(configHtml))
    ensures !IsGetConfig(req) && !IsConfigureWifi(req) ==> Respond(info, req, buffer, configHtml) == NoReply
  {
  }

  /** A body that splits into more than 20 pieces panics; every other rejected form is ignored. */
  lemma RejectedForm(info: Option<Storage.WifiStorage>, req: HttpRequest, buffer: string, configHtml: string)
    requires IsConfigureWifi(req) && Form(req.headers, buffer).Err?
    ensures Respond(info, req, buffer, configHtml) ==
      if Form(req.headers, buffer) == Err(SplitOverflow) then Panicked else NoReply
  {
  }

  /**
   * With `WIFI_INFO` loaded, a valid form never gets the restart page: the
   * write reports success, so the device resets (or an `unwrap` panics).
   */
  lemma StoredFormResets(w: Storage.WifiStorage, req: HttpRequest, buffer: string, configHtml: string)
    requires IsConfigureWifi(req) && Form(req.headers, buffer).Ok?
    ensures Respond(Some(w), req, buffer, configHtml) ==
      (if Credentials(Form(req.headers, buffer).value).Some? then Reset else Panicked)
  {
  }

  /** The credentials of a form ending with an `ssid` field and a `password` field. */
  lemma CredentialsOfForm(others: seq<Field>, ssid: string, password: string)
    requires Utf8Len(ssid) <= CREDENTIAL_CAPACITY && Utf8Len(password) <= CREDENTIAL_CAPACITY
    ensures Credentials(others + [("ssid", ssid), ("password", password)]) ==
      Some(Storage.WifiStorage(ssid, password, true))
  {
    var fields := others + [("ssid", ssid), ("password", password)];
    assert fields == others + [("ssid", ssid)] + [("password", password)];
    LastValueWins(others, "ssid", ssid, [("password", password)]);
    assert fields == others + [("ssid", ssid)] + [("password", password)] + [];
    LastValueWins(others + [("ssid", ssid)], "password", password, []);
  }

  /**
   * End to end: a browser posting plain fields that end with `ssid` and
   * `password` has both stored, marked finished, and the device reset.
   */
  lemma ProvisioningRoundTrip(w: Storage.WifiStorage, head: string, boundary: string, others: seq<Field>,
                              ssid: string, password: string, configHtml: string)
    requires SeparatorFree(head, BLANK_LINE)
    requires |others| <= MAX_FIELDS - 4
    requires var fields := others + [("ssid", ssid), ("password", password)];
      PlainBoundary(boundary) && DelimitsOnly(boundary, fields) && PlainFields(fields)
    requires Utf8Len(ssid) <= CREDENTIAL_CAPACITY && Utf8Len(password) <= CREDENTIAL_CAPACITY
    ensures var fields := others + [("ssid", ssid), ("password", password)];
      var req := HttpRequest(Some("POST"), Some("/configure_wifi"), [MultipartHeader(boundary)]);
      var buffer := MultipartRequest(head, boundary, fields);
      && Respond(Some(w), req, buffer, configHtml) == Reset
      && Credentials(Form(req.headers, buffer).value) == Some(Storage.WifiStorage(ssid, password, true))
  {
    var fields := others + [("ssid", ssid), ("password", password)];
    var req := HttpRequest(Some("POST"), Some("/configure_wifi"), [MultipartHeader(boundary)]);
    var buffer := MultipartRequest(head, boundary, fields);
    FormRoundTrip(head, boundary, fields);
    CredentialsOfForm(others, ssid, password);
    StoredFormResets(w, req, buffer, configHtml);
  }

  /** The loop over the form's fields in `process_http`: the last `ssid` and `password` seen. */
  method LastCredentials(fields: seq<Field>) returns (ssid: Option<string>, password: Option<string>)
    ensures ssid == LastValue(fields, "ssid") && password == LastValue(fields, "password")
  {
    ssid, password := None, None;
    var i := 0;
    while i < |fields|
      invariant 0 <= i <= |fields|
      invariant ssid == LastValue(fields[..i], "ssid")
      invariant password == LastValue(fields[..i], "password")
    {
      assert fields[..i + 1][..i] == fields[..i];
      if fields[i].0 == "ssid" {
        ssid := Some(fields[i].1);
      } else if fields[i].0 == "password" {
        password := Some(fields[i].1);
      }
      i := i + 1;
    }
    assert fields[..i] == fields;
  }

  /**
   * `process_http` on the shared Wi-Fi record: the outcome is `Respond`, and
   * only a reset stores the new credentials (`hwWriteOk` is what the flash
   * driver reports for the write).
   */
  method ProcessHttp(nvs: Storage.Nvs, req: HttpRequest, buffer: string, configHtml: string, hwWriteOk: bool)
    returns (out: HttpOutcome)
    requires nvs.Valid()
    modifies nvs
    ensures nvs.Valid()
    ensures out == Respond(old(nvs.wifiInfo), req, buffer, configHtml)
    ensures out.Reset? ==>
      var w := Credentials(Form(req.headers, buffer).value).value;
      nvs.wifiInfo == Some(w) && nvs.flash == Storage.Write(old(nvs.flash), Storage.Wifi(w), hwWriteOk).0
    ensures !out.Reset? ==> nvs.wifiInfo == old(nvs.wifiInfo) && nvs.flash == old(nvs.flash)
  {
    out := NoReply;
    if IsGetConfig(req) {
      out := Replied(ConfigPage(configHtml));
    }
    if IsConfigureWifi(req) {
      var form := ParseForm(req.headers, buffer);
      if form == Err(SplitOverflow) {
        return Panicked;
      }
      if form.Ok? {
        out := StoreForm(nvs, form.value, hwWriteOk);
      }
    }
  }

  /** The POST branch of `process_http` once the form parsed: update `WIFI_INFO` and write it to flash. */
  method StoreForm(nvs: Storage.Nvs, fields: seq<Field>, hwWriteOk: bool) returns (out: HttpOutcome)
    requires nvs.Valid()
    modifies nvs
    ensures nvs.Valid()
    ensures out == Store(old(nvs.wifiInfo), fields)
    ensures out.Reset? ==>
      var w := Credentials(fields).value;
      nvs.wifiInfo == Some(w) && nvs.flash == Storage.Write(old(nvs.flash), Storage.Wifi(w), hwWriteOk).0
    ensures !out.Reset? ==> nvs.wifiInfo == old(nvs.wifiInfo) && nvs.flash == old(nvs.flash)
  {
    var ssid, password := LastCredentials(fields);
    if nvs.wifiInfo.None? {
      return Replied(RestartPage);
    }
    if ssid.None? || Utf8Len(ssid.value) > CREDENTIAL_CAPACITY {
      return Panicked;
    }
    if password.None? || Utf8Len(password.value) > CREDENTIAL_CAPACITY {
      return Panicked;
    }
    var w := nvs.wifiInfo.value.(ssid := ssid.value, password := password.value, finish := true);
    nvs.wifiInfo := Some(w);
    var written := nvs.WriteRecord(Storage.Wifi(w), hwWriteOk);
    if written.Ok? {
      return Reset;
    }
    out := Replied(RestartPage);
  }

  // ---------------------------------------------------------------------------
  // The read loop of `web_tcp_socket`: reads until the text seen so far holds
  // a blank line, then hands that text to `process_http`.

  const BUFFER_SIZE: nat := 2048

  /** One result of `socket.read`: some bytes (at most the buffer's length), end of stream, or an error. */
  datatype ReadResult = Data(bytes: string) | Eof | ReadError

  datatype Received =
    | Handled(text: string)   // passed to process_http
    | Closed                  // end of stream or read error
    | Overflow                // the slice `buffer[..pos + len]` is out of range: panic
    | Waiting                 // the results so far end without any of these

  predicate ChunksFit(results: seq<ReadResult>) {
    forall i :: 0 <= i < |results| && results[i].Data? ==> 1 <= |results[i].bytes| <= BUFFER_SIZE
  }

  function Zeroed(): (z: seq<char>)
    ensures |z| == BUFFER_SIZE
  {
    seq(BUFFER_SIZE, _ => '\0')
  }

  /**
   * The loop as written: every read lands at the start of the buffer, while
   * the text inspected is the first `pos + len` bytes of the buffer, `pos`
   * counting the bytes of all earlier results.
   */
  function ReceiveAsWritten(buffer: seq<char>, pos: nat, results: seq<ReadResult>): Received
    requires |buffer| == BUFFER_SIZE && ChunksFit(results)
    decreases |results|
  {
    if results == [] then Waiting
    else
      match results[0]
      case Eof => Closed
      case ReadError => Closed
      case Data(chunk) =>
        var next := chunk + buffer[|chunk|..];
        if pos + |chunk| > BUFFER_SIZE then Overflow
        else if Contains(next[..pos + |chunk|], BLANK_LINE) then Handled(next[..pos + |chunk|])
        else ReceiveAsWritten(next, pos + |chunk|, results[1..])
  }

  /** The read loop over a zeroed 2048-byte array, as written. */
  method ReceiveRequest(results: seq<ReadResult>) returns (r: Received)
    requires ChunksFit(results)
    ensures r == ReceiveAsWritten(Zeroed(), 0, results)
  {
    var buffer := new char[BUFFER_SIZE](_ => '\0');
    assert buffer[..] == Zeroed();
    var pos: nat := 0;
    var k := 0;
    while k < |results|
      invariant 0 <= k <= |results| && buffer.Length == BUFFER_SIZE
      invariant ReceiveAsWritten(buffer[..], pos, results[k..]) == ReceiveAsWritten(Zeroed(), 0, results)
      decreases |results| - k
    {
      assert results[k..][0] == results[k] && results[k..][1..] == results[k + 1..];
      match results[k] {
        case Eof =>
          return Closed;
        case ReadError =>
          return Closed;
        case Data(chunk) =>
          ghost var before := buffer[..];
          forall i | 0 <= i < |chunk| {
            buffer[i] := chunk[i];
          }
          assert buffer[..] == chunk + before[|chunk|..];
          if pos + |chunk| > BUFFER_SIZE {
            return Overflow;
          }
          var seen := buffer[..pos + |chunk|];
          if Contains(seen, BLANK_LINE) {
            return Handled(seen);
          }
          pos := pos + |chunk|;
      }
      k := k + 1;
    }
    assert results[k..] == [];
    return Waiting;
  }

  /** The bytes delivered by the successive reads up to the first end of stream or error. */
  function AllData(results: seq<ReadResult>): string
    decreases |results|
  {
    if results == [] || !results[0].Data? then [] else results[0].bytes + AllData(results[1..])
  }

  /**
   * The loop as evidently intended: each read fills the buffer from `pos` on,
   * so the text inspected is everything received so far. A read never gets
   * more than the free part of the buffer, and a read into a full buffer
   * returns 0, which ends the connection like end of stream.
   */
  function ReceiveIntended(seen: string, results: seq<ReadResult>): (r: Received)
    requires |seen| <= BUFFER_SIZE && ChunksFit(results)
    ensures r != Overflow
    ensures |seen| == BUFFER_SIZE ==> !r.Handled?
    ensures r.Handled? ==> Contains(r.text, BLANK_LINE) && |r.text| <= BUFFER_SIZE
    ensures r.Handled? ==> seen < r.text && r.text <= seen + AllData(results)
    decreases |results|
  {
    if results == [] then Waiting
    else
      match results[0]
      case Eof => Closed
      case ReadError => Closed
      case Data(chunk) =>
        var room := BUFFER_SIZE - |seen|;
        if room == 0 then Closed
        else
          var got := if |chunk| <= room then chunk else chunk[..room];
          var next := seen + got;
          if Contains(next, BLANK_LINE) then Handled(next)
          else
            var r := ReceiveIntended(next, results[1..]);
            if r.Handled? then
              assert got == chunk;
              ExtendPrefix(seen, got, AllData(results[1..]), r.text);
              r
            else r
  }

  /** A text that extends `seen + got` within `seen + got + more` extends `seen` within the same text. */
  lemma ExtendPrefix(seen: string, got: string, more: string, text: string)
    requires |got| > 0 && seen + got < text && text <= seen + got + more
    ensures seen < text && text <= seen + (got + more)
  {
    assert seen + got + more == seen + (got + more);
    assert text[..|seen|] == (seen + got)[..|seen|] == seen;
  }

  /** A text in which no two carriage returns stand two apart holds no blank line. */
  lemma NoBlankLine(s: string)
    requires forall i :: 0 <= i < |s| - 2 ==> s[i] != '\r' || s[i + 2] != '\r'
    ensures !Contains(s, BLANK_LINE)
  {
    forall j | 0 <= j ensures !OccursAt(s, BLANK_LINE, j) {
      if j + 4 <= |s| {
        assert s[j..j + 4][0] == s[j] && s[j..j + 4][2] == s[j + 2];
      }
    }
  }

  /** A line and its line end, with no blank line before the end. */
  lemma LineHasNoBlankLine(line: string, z: string)
    requires '\r' !in line && '\r' !in z
    ensures !Contains(line + "\r\n" + z, BLANK_LINE)
  {
    var s := line + "\r\n" + z;
    forall i | 0 <= i < |s| - 2 ensures s[i] != '\r' || s[i + 2] != '\r' {
      if i < |line| {
        assert s[i] == line[i];
      } else if i == |line| {
        assert i + 2 >= |s| || s[i + 2] == z[0];
      } else {
        assert s[i] == '\n' || s[i] == z[i - |line| - 2];
      }
    }
    NoBlankLine(s);
  }

  lemma SliceOfConcat(a: string, b: string, i: nat, j: nat)
    requires i <= |a| <= j <= |a| + |b|
    ensures (a + b)[i..j] == a[i..] + b[..j - |a|]
  {
  }

  /** What the second read leaves in view: a line end, the rest of the line, its line end and two zero bytes. */
  lemma ShiftedHasNoBlankLine(mid: string)
    requires |mid| >= 1 && '\r' !in mid
    ensures !Contains("\r\n" + mid + "\r\n" + "\0\0", BLANK_LINE)
  {
    var s := "\r\n" + mid + "\r\n" + "\0\0";
    forall i | 0 <= i < |s| - 2 ensures s[i] != '\r' || s[i + 2] != '\r' {
      if i == 0 {
        assert s[2] == mid[0];
      } else if i == 1 {
        assert s[1] == '\n';
      } else if i < |mid| + 2 {
        assert s[i] == mid[i - 2];
      } else if i == |mid| + 2 {
        assert s[i + 2] == '\0';
      } else {
        assert s[i] == '\n';
      }
    }
    NoBlankLine(s);
  }

  /** A request whose header block arrives in two reads: the request line, then the empty line. */
  function SplitRequest(line: string): seq<ReadResult> {
    [Data(line + "\r\n"), Data("\r\n"), Eof]
  }

  /**
   * As written, the second read overwrites the start of the buffer, so the
   * text inspected is a line end, the request line without its first two
   * characters, a line end and two zero bytes. It holds no blank line, the
   * end of stream follows, and the request is dropped: for instance the
   * request line `GET /config HTTP/1.0`.
   */
  lemma SplitRequestDropped(line: string)
    requires 3 <= |line| <= BUFFER_SIZE - 4 && '\r' !in line
    ensures ReceiveAsWritten(Zeroed(), 0, SplitRequest(line)) == Closed
  {
    var z := Zeroed()[|line| + 2..];
    assert z[..2] == "\0\0" by {
      assert z[0] == Zeroed()[|line| + 2] && z[1] == Zeroed()[|line| + 3];
    }
    SplitDroppedFrom(line, Zeroed());
  }

  /** The same two reads into any buffer that holds two zero bytes just past the request line. */
  lemma SplitDroppedFrom(line: string, zb: seq<char>)
    requires 3 <= |line| <= BUFFER_SIZE - 4 && '\r' !in line
    requires |zb| == BUFFER_SIZE && zb[|line| + 2..][..2] == "\0\0"
    ensures ReceiveAsWritten(zb, 0, SplitRequest(line)) == Closed
  {
    var first := line + "\r\n";
    var b1 := first + zb[|first|..];
    assert SplitRequest(line) == [Data(first)] + [Data("\r\n"), Eof];
    assert [Data("\r\n"), Eof] == [Data("\r\n")] + [Eof];
    LineHasNoBlankLine(line, "");
    assert line + "\r\n" + "" == first && b1[..|first|] == first;
    ReadStep(zb, 0, first, [Data("\r\n"), Eof]);
    SecondView(line, zb[|first|..]);
    ShiftedHasNoBlankLine(line[2..]);
    ReadStep(b1, |first|, "\r\n", [Eof]);
  }

  /** A read that fits and leaves no blank line in view moves on to the next result. */
  lemma ReadStep(buffer: seq<char>, pos: nat, chunk: string, rest: seq<ReadResult>)
    requires |buffer| == BUFFER_SIZE && ChunksFit([Data(chunk)] + rest) && ChunksFit(rest)
    requires pos + |chunk| <= BUFFER_SIZE
    requires !Contains((chunk + buffer[|chunk|..])[..pos + |chunk|], BLANK_LINE)
    ensures ReceiveAsWritten(buffer, pos, [Data(chunk)] + rest) ==
      ReceiveAsWritten(chunk + buffer[|chunk|..], pos + |chunk|, rest)
  {
    assert ([Data(chunk)] + rest)[0] == Data(chunk) && ([Data(chunk)] + rest)[1..] == rest;
  }

  /** The text in view after the second read of a split request: the line end overwrites the first two characters. */
  lemma SecondView(line: string, z: string)
    requires 3 <= |line| && |z| >= 2 && z[..2] == "\0\0"
    ensures ("\r\n" + (line + "\r\n" + z)[2..])[..|line| + 4] == "\r\n" + line[2..] + "\r\n" + "\0\0"
  {
    var a := ("\r\n" + (line + "\r\n" + z)[2..])[..|line| + 4];
    var b := "\r\n" + line[2..] + "\r\n" + "\0\0";
    assert |a| == |b|;
    forall k | 0 <= k < |a| ensures a[k] == b[k] {
      if k < 2 {
      } else if k < |line| {
        assert a[k] == line[k] && b[k] == line[2..][k - 2];
      } else if k < |line| + 2 {
        assert a[k] == "\r\n"[k - |line|];
      } else {
        assert a[k] == z[k - |line| - 2] == z[..2][k - |line| - 2];
      }
    }
  }

  /** When every read fills the buffer from `pos` on, the same reads deliver the whole header block. */
  lemma SplitRequestHandled(line: string)
    requires |line| <= BUFFER_SIZE - 4 && '\r' !in line
    ensures ReceiveIntended("", SplitRequest(line)) == Handled(line + "\r\n\r\n")
  {
    var results := SplitRequest(line);
    var first := line + "\r\n";
    assert "" + first == first;
    LineHasNoBlankLine(line, "");
    assert line + "\r\n" + "" == first;
    assert first + "\r\n" == line + BLANK_LINE;
    assert OccursAt(first + "\r\n", BLANK_LINE, |line|);
    assert ReceiveIntended(first, results[1..]) == ReceiveIntended("", results);
  }
}
