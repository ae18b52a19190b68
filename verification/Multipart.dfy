/** The fixed-boundary multipart/form-data codec. */
module Multipart {
  import opened Wrappers
  import opened Text

  const BOUNDARY := "boundary-4f20310a-8ea0" + "-4fa7-aebb-1d8bf9e58f66"
  const DASHED := "--" + BOUNDARY
  const DELIMITER := "\r\n" + DASHED
  const BLANK := "\r\n\r\n"
  const DISPOSITION := "Content-Disposition: form-data; "
  const NAME := "name=\""

  datatype Part = Part(name: string, content: string)

  /** Parts by key; a parsed part's key is its name. */
  type Parts = map<string, Part>

  // ---- Printing ----

  function EncodePart(key: string, content: string): string {
    DASHED + "\r\n" + DISPOSITION + NAME + key + "\"\r\n\r\n" + content + "\r\n"
  }

  /** The parts listed by keys, then the closing delimiter. */
  function Encode(parts: Parts, keys: seq<string>): string
    requires forall k :: k in keys ==> k in parts
  {
    if keys == [] then DASHED + "--"
    else EncodePart(keys[0], parts[keys[0]].content) + Encode(parts, keys[1..])
  }

  /** The order in which the map's entries are visited. */
  ghost predicate Enumerates(keys: seq<string>, parts: Parts) {
    forall k :: k in keys <==> k in parts
  }

  lemma {:induction false} EncodeSnoc(parts: Parts, keys: seq<string>, n: nat, before: string)
    requires n < |keys| && forall k :: k in keys ==> k in parts
    ensures before + EncodePart(keys[n], parts[keys[n]].content) + Encode(parts, keys[n + 1..])
         == before + Encode(parts, keys[n..])
  {
    assert keys[n..][1..] == keys[n + 1..];
  }

  method GenerateMultipartFormData(parts: Parts, keys: seq<string>) returns (text: string)
    requires Enumerates(keys, parts)
    ensures text == Encode(parts, keys)
  {
    var ss := "";
    var n := 0;
    while n < |keys|
      invariant 0 <= n <= |keys|
      invariant ss + Encode(parts, keys[n..]) == Encode(parts, keys)
    {
      var name, part := keys[n], parts[keys[n]];
      EncodeSnoc(parts, keys, n, ss);
      ss := ss + (DASHED + "\r\n" + DISPOSITION + NAME + name + "\"\r\n\r\n" + part.content + "\r\n");
      n := n + 1;
    }
    assert Encode(parts, keys[n..]) == DASHED + "--";
    ss := ss + (DASHED + "--");
    return ss;
  }

  // ---- Parsing ----

  /** Header and content of one part, if it has a blank line and a quoted name before it. */
  function FormPart(text: string): Option<Part> {
    match Find(text, BLANK, 0)
    case None => None
    case Some(headerEnd) =>
      var header := text[..headerEnd];
      match Find(header, NAME, 0)
      case None => None
      case Some(namePos) =>
        match Find(header, "\"", namePos + 6)
        case None => None
        case Some(nameEnd) => Some(Part(header[namePos + 6..nameEnd], text[headerEnd + 4..]))
  }

  function AddPart(text: string, result: Parts): Parts {
    match FormPart(text)
    case None => result
    case Some(part) => result[part.name := part]
  }

  /** Parsing the rest of a text: skip to the boundary, cut at the next delimiter, go on from there. */
  function Decode(text: string, result: Parts): Parts
    decreases |text|
  {
    match Find(text, DASHED, 0)
    case None => result
    case Some(start) =>
      var rest := text[start + |DASHED|..];
      match Find(rest, DELIMITER, 0)
      case None => result
      case Some(end) => Decode(rest[end..], AddPart(rest[..end], result))
  }

  method ParseFormPart(partStr: string, result: Parts) returns (result': Parts)
    ensures result' == AddPart(partStr, result)
  {
    var headerEnd := Find(partStr, BLANK, 0);
    if headerEnd.None? {
      return result;
    }
    var header := partStr[..headerEnd.value];
    var namePos := Find(header, NAME, 0);
    if namePos.None? {
      return result;
    }
    var nameStart := namePos.value + 6;
    var nameEnd := Find(header, "\"", nameStart);
    if nameEnd.None? {
      return result;
    }
    var name := header[nameStart..nameEnd.value];
    var value := partStr[headerEnd.value + 4..];
    return result[name := Part(name, value)];
  }

  /** One round of the parsing loop, in positions of the whole text. */
  lemma DecodeAt(data: string, pos: nat, result: Parts)
    requires pos <= |data|
    ensures Decode(data[pos..], result)
         == (match Find(data, DASHED, pos)
             case None => result
             case Some(start) =>
               match Find(data, DELIMITER, start + |DASHED|)
               case None => result
               case Some(end) => Decode(data[end..], AddPart(data[start + |DASHED|..end], result)))
  {
    hide Find, AddPart, BOUNDARY, DASHED, DELIMITER;
    FindInSuffix(data, DASHED, pos);
    if Find(data, DASHED, pos).Some? {
      var p := Find(data, DASHED, pos).value + |DASHED|;
      assert data[pos..][p - pos..] == data[p..];
      FindInSuffix(data, DELIMITER, p);
      if Find(data, DELIMITER, p).Some? {
        var e := Find(data, DELIMITER, p).value;
        assert data[p..][..e - p] == data[p..e];
        assert data[p..][e - p..] == data[e..];
      }
    }
  }

  method ParseMultipartFormData(data: string) returns (result: Parts)
    ensures result == Decode(data, map[])
  {
    hide Find, AddPart, BOUNDARY, DASHED, DELIMITER;
    result := map[];
    var pos := 0;
    var found := Find(data, DASHED, pos);
    assert data[0..] == data;
    while found.Some?
      invariant pos <= |data| && found == Find(data, DASHED, pos)
      invariant Decode(data[pos..], result) == Decode(data, map[])
      decreases |data| - pos
    {
      DecodeAt(data, pos, result);
      DelimiterShape();
      hide Decode;
      pos := found.value + |DASHED|;
      var endPos := Find(data, DELIMITER, pos);
      if endPos.None? {
        return result;
      }
      result := ParseFormPart(data[pos..endPos.value], result);
      pos := endPos.value;
      found := Find(data, DASHED, pos);
    }
    DecodeAt(data, pos, result);
  }

  // ---- What survives the trip ----

  /** A part name the format can carry: no quote, no blank line, no delimiter. */
  ghost predicate NameOk(name: string) {
    '"' !in name && !Contains(name, BLANK) && !Contains(name, DELIMITER)
  }

  /** A content the format can carry: with the line break that precedes it, it contains no delimiter. */
  ghost predicate ContentOk(content: string) {
    !Contains("\r\n" + content, DELIMITER)
  }

  ghost predicate PartOk(key: string, part: Part) {
    part.name == key && NameOk(key) && ContentOk(part.content)
  }

  ghost predicate Carriable(parts: Parts) {
    forall k :: k in parts ==> PartOk(k, parts[k])
  }

  // ---- Every parsed part can be carried ----

  /** Name and content of a part cut out between two delimiters. */
  lemma FormPartOk(text: string)
    requires !Contains(text, DELIMITER) && FormPart(text).Some?
    ensures NameOk(FormPart(text).value.name) && ContentOk(FormPart(text).value.content)
  {
    var part := FormPart(text).value;
    var headerEnd := Find(text, BLANK, 0).value;
    var header := text[..headerEnd];
    var start := Find(header, NAME, 0).value + 6;
    var end := Find(header, "\"", start).value;
    assert part.name == text[start..end];
    assert part.content == text[headerEnd + 4..];
    assert MatchesAt(text, BLANK, headerEnd);
    hide Find, FormPart, BOUNDARY, DASHED, DELIMITER;
    if Contains(part.name, DELIMITER) { PartContainsLess(text, start, end, DELIMITER); }
    if Contains(part.name, BLANK) {
      PartContainsLess(text[..headerEnd], start, end, BLANK);
      BeforeFirstMatch(text, BLANK, headerEnd);
    }
    forall k | 0 <= k < |part.name| ensures part.name[k] != '"' {
      assert !MatchesAt(header, "\"", start + k);
      assert header[start + k..start + k + 1] == [header[start + k]];
    }
    assert text[headerEnd..headerEnd + 4] == BLANK;
    assert text[headerEnd + 2] == text[headerEnd..headerEnd + 4][2] == '\r';
    assert text[headerEnd + 3] == text[headerEnd..headerEnd + 4][3] == '\n';
    assert "\r\n" + part.content == text[headerEnd + 2..|text|];
    if Contains("\r\n" + part.content, DELIMITER) { PartContainsLess(text, headerEnd + 2, |text|, DELIMITER); }
  }

  lemma AddPartOk(text: string, result: Parts)
    requires !Contains(text, DELIMITER) && Carriable(result)
    ensures Carriable(AddPart(text, result))
  {
    if FormPart(text).Some? { FormPartOk(text); }
    hide FormPart, BOUNDARY, DASHED, DELIMITER;
  }

  /** Whatever the text, everything parsed from it can be carried. */
  lemma {:induction false} DecodedIsCarriable(text: string, result: Parts)
    requires Carriable(result)
    ensures Carriable(Decode(text, result))
    decreases |text|
  {
    hide Find, AddPart, BOUNDARY, DASHED, DELIMITER, PartOk;
    var start := Find(text, DASHED, 0);
    if start.Some? {
      var rest := text[start.value + |DASHED|..];
      var end := Find(rest, DELIMITER, 0);
      if end.Some? {
        DelimiterShape();
        BeforeFirstMatch(rest, DELIMITER, end.value);
        AddPartOk(rest[..end.value], result);
        DecodedIsCarriable(rest[end.value..], AddPart(rest[..end.value], result));
      }
    }
  }

  /** No carriage return and no quote. */
  predicate Plain(s: string) {
    forall k :: 0 <= k < |s| ==> s[k] != '\r' && s[k] != '"'
  }

  lemma BoundaryIsPlain()
    ensures Plain(BOUNDARY) && |BOUNDARY| == 45
  {
    assert Plain("boundary-4f20310a-8ea0") && Plain("-4fa7-aebb-1d8bf9e58f66");
  }

  /** What the proofs need of the boundary: a delimiter has its only carriage return in front. */
  lemma DelimiterShape()
    ensures |DASHED| == 47 && DASHED[0] == '-' && |DELIMITER| == |DASHED| + 2 && DELIMITER == "\r\n" + DASHED
    ensures DELIMITER[0] == '\r' && DELIMITER[1] == '\n' && DELIMITER[2] == '-'
    ensures Plain(DELIMITER[1..])
  {
    BoundaryIsPlain();
    hide BOUNDARY;
    assert DELIMITER[1..] == "\n--" + BOUNDARY;
  }

  // ---- Cutting a generated text ----

  /** A string followed by a delimiter is cut exactly there: no match can straddle the cut, because a
      delimiter has no carriage return but its first character. */
  lemma CutAtDelimiter(body: string, tail: string)
    requires !Contains(body, DELIMITER)
    ensures Find(body + DELIMITER + tail, DELIMITER, 0) == Some(|body|)
  {
    DelimiterShape();
    hide BOUNDARY, DASHED, DELIMITER;
    var text := body + DELIMITER + tail;
    var d := DELIMITER;
    forall i: nat | 0 <= i < |body| ensures !MatchesAt(text, d, i) {
      if i + |d| <= |body| {
        assert text[i..i + |d|] == body[i..i + |d|];
        assert !MatchesAt(body, d, i);
      } else if i + |d| <= |text| {
        assert text[i..i + |d|][|body| - i] == text[|body|] == d[0];
        assert d[1..][|body| - i - 1] == d[|body| - i] != '\r';
      }
    }
    assert text[|body|..|body| + |d|] == d;
    assert MatchesAt(text, d, |body|);
    FindFirst(text, d, 0, |body|);
  }

  const HEAD := "\r\n" + DISPOSITION + NAME

  /** What stands between the boundary and the next delimiter in a generated part. */
  function Body(name: string, content: string): string {
    HEAD + name + "\"" + BLANK + content
  }

  lemma HeadShape()
    ensures |HEAD| == 40 && HEAD[34..40] == NAME && HEAD[0] == '\r' && HEAD[2] == 'C'
    ensures forall k :: 0 < k < 39 ==> HEAD[k] != '\r' && HEAD[k] != '"'
    ensures HEAD[39] == '"'
  {
  }

  /** Where the pieces of a body are. */
  lemma BodyShape(name: string, content: string)
    ensures var x := Body(name, content); var q := 40 + |name|;
      && |x| == q + 5 + |content|
      && x[..40] == HEAD && x[40..q] == name && x[q] == '"' && x[q + 1..q + 5] == BLANK
      && x[q + 3..] == "\r\n" + content && x[q + 5..] == content && x[..q + 1] == HEAD + name + "\""
  {
    HeadShape();
  }

  /** What begins with a line break and contains no quote is not found up to the end of a clean name. */
  lemma NoMatchUpToName(name: string, content: string, needle: string, i: nat)
    requires |needle| >= 3 && '"' !in needle && needle[0] == '\r' && needle[2] != 'C'
    requires !Contains(name, needle) && i <= 40 + |name|
    ensures !MatchesAt(Body(name, content), needle, i)
  {
    HeadShape();
    BodyShape(name, content);
    hide HEAD, Body, DISPOSITION;
    var x, q := Body(name, content), 40 + |name|;
    assert x[..40] == HEAD && x[40..q] == name && x[q] == '"';
    if i + |needle| <= |x| {
      var m := x[i..i + |needle|];
      assert m[0] == x[i] && m[2] == x[i + 2];
      if i < 40 {
        assert x[i] == HEAD[i] && x[2] == HEAD[2];
      } else if i + |needle| > q {
        assert m[q - i] == '"';
      } else {
        assert name[i - 40..i - 40 + |needle|] == m;
        assert !MatchesAt(name, needle, i - 40);
      }
    }
  }

  lemma BodyHasNoDelimiter(name: string, content: string)
    requires NameOk(name) && ContentOk(content)
    ensures !Contains(Body(name, content), DELIMITER)
  {
    forall i: nat ensures !MatchesAt(Body(name, content), DELIMITER, i) {
      NoDelimiterAt(name, content, i);
    }
    hide Body, DELIMITER;
  }

  lemma NoDelimiterAt(name: string, content: string, i: nat)
    requires NameOk(name) && ContentOk(content)
    ensures !MatchesAt(Body(name, content), DELIMITER, i)
  {
    DelimiterShape();
    BodyShape(name, content);
    hide Body, HEAD, BOUNDARY, DASHED, DELIMITER;
    var x, q, d := Body(name, content), 40 + |name|, DELIMITER;
    if i <= q {
      forall c | c in d ensures c != '"' { NoQuote(d, c); }
      NoMatchUpToName(name, content, d, i);
    } else if i >= q + 3 {
      NoMatchInContent(x, content, d, q, i);
    } else {
      NoMatchInBlank(x, d, q, i);
    }
  }

  /** Nor further on, if the content may follow a line break. */
  lemma NoMatchInContent(x: string, content: string, d: string, q: nat, i: nat)
    requires q + 3 <= |x| && x[q + 3..] == "\r\n" + content && i >= q + 3 && !Contains("\r\n" + content, d)
    ensures !MatchesAt(x, d, i)
  {
    hide BOUNDARY, DASHED, DELIMITER;
    MatchInSuffix(x, d, q + 3, i - (q + 3));
    assert !MatchesAt("\r\n" + content, d, i - (q + 3));
  }

  /** A delimiter does not begin at the closing quote or in the first break of a blank line. */
  lemma NoMatchInBlank(x: string, d: string, q: nat, i: nat)
    requires |d| > 2 && d[0] == '\r' && d[2] == '-' && q + 5 <= |x| && x[q + 1..q + 5] == BLANK && q < i < q + 3
    ensures !MatchesAt(x, d, i)
  {
    hide BOUNDARY, DASHED, DELIMITER;
    assert x[q + 1..q + 5][1] == x[q + 2] && x[q + 1..q + 5][2] == x[q + 3];
    if i + |d| <= |x| { assert x[i..i + |d|][0] == x[i] && x[i..i + |d|][2] == x[i + 2]; }
  }

  lemma NoQuote(d: string, c: char)
    requires |d| > 0 && d[0] == '\r' && Plain(d[1..]) && c in d
    ensures c != '"'
  {
    var k :| 0 <= k < |d| && d[k] == c;
    if k > 0 { assert d[1..][k - 1] == c; }
  }

  /** A generated part is read back as it was. */
  lemma FormPartOfBody(name: string, content: string)
    requires NameOk(name)
    ensures FormPart(Body(name, content)) == Some(Part(name, content))
  {
    var x, q := Body(name, content), 40 + |name|;
    BodyShape(name, content);
    HeadShape();
    hide Body, HEAD, Find;
    forall i: nat | 0 <= i < q + 1 ensures !MatchesAt(x, BLANK, i) {
      NoMatchUpToName(name, content, BLANK, i);
    }
    FindFirst(x, BLANK, 0, q + 1);
    var header := x[..q + 1];
    assert header[..40] == HEAD && header[40..q] == name && header[q] == '"';
    assert header[34..40] == HEAD[34..40] == NAME;
    forall i: nat | 0 <= i < 34 ensures !MatchesAt(header, NAME, i) {
      assert header[i + 5] == HEAD[i + 5] != '"';
      assert header[i..i + 6][5] == header[i + 5];
    }
    FindFirst(header, NAME, 0, 34);
    forall i: nat | 40 <= i < q ensures !MatchesAt(header, "\"", i) {
      assert header[i..i + 1] == [header[i]] == [name[i - 40]];
    }
    assert header[q..q + 1] == "\"";
    FindFirst(header, "\"", 40, q);
  }

  // ---- The round trip ----

  /** The entries of the listed keys, renamed to their keys as the format does. */
  function Listed(parts: Parts, keys: seq<string>, result: Parts): Parts
    requires forall k :: k in keys ==> k in parts
  {
    if keys == [] then result
    else Listed(parts, keys[1..], result[keys[0] := Part(keys[0], parts[keys[0]].content)])
  }

  lemma {:induction false} ListedIs(parts: Parts, keys: seq<string>, result: Parts, k: string)
    requires forall k :: k in keys ==> k in parts
    ensures k in Listed(parts, keys, result) <==> k in keys || k in result
    ensures k in keys ==> Listed(parts, keys, result)[k] == Part(k, parts[k].content)
    ensures k !in keys && k in result ==> Listed(parts, keys, result)[k] == result[k]
  {
    if keys == [] {
    } else {
      assert k in keys <==> k == keys[0] || k in keys[1..];
      ListedIs(parts, keys[1..], result[keys[0] := Part(keys[0], parts[keys[0]].content)], k);
    }
  }

  lemma EncodeBegins(parts: Parts, keys: seq<string>)
    requires forall k :: k in keys ==> k in parts
    ensures |Encode(parts, keys)| >= |DASHED| && Encode(parts, keys)[..|DASHED|] == DASHED
  {
    hide BOUNDARY, DASHED;
  }

  /** After an optional line break, the boundary is found at once. */
  lemma FindBoundary(glue: string, text: string)
    requires glue == "" || glue == "\r\n"
    requires |text| >= |DASHED| && text[..|DASHED|] == DASHED
    ensures Find(glue + text, DASHED, 0) == Some(|glue|)
  {
    DelimiterShape();
    hide BOUNDARY, DASHED, DELIMITER;
    var t := glue + text;
    assert t[|glue|..|glue| + |DASHED|] == DASHED;
    forall i: nat | 0 <= i < |glue| ensures !MatchesAt(t, DASHED, i) {
      assert t[i..i + |DASHED|][0] == glue[i];
    }
    FindFirst(t, DASHED, 0, |glue|);
  }

  /** Reading one generated part: it is entered under its key, and reading goes on at the line break in
      front of the next boundary. */
  lemma DecodeOnePart(name: string, content: string, glue: string, tail: string, result: Parts)
    requires NameOk(name) && ContentOk(content) && (glue == "" || glue == "\r\n")
    requires |tail| >= |DASHED| && tail[..|DASHED|] == DASHED
    ensures Decode(glue + (EncodePart(name, content) + tail), result)
         == Decode("\r\n" + tail, result[name := Part(name, content)])
  {
    DelimiterShape();
    EncodePartBegins(name, content, tail);
    hide BOUNDARY, DASHED, DELIMITER, NameOk, ContentOk, Find, EncodePart, FormPart, Body;
    var text := glue + (EncodePart(name, content) + tail);
    FindBoundary(glue, EncodePart(name, content) + tail);
    var rest := text[|glue| + |DASHED|..];
    var body := Body(name, content);
    EncodedRest(name, content, tail, rest, glue, text);
    BodyHasNoDelimiter(name, content);
    CutAtDelimiter(body, tail[|DASHED|..]);
    FormPartOfBody(name, content);
    assert rest[..|body|] == body && rest[|body|..] == "\r\n" + tail;
  }

  lemma EncodePartBegins(name: string, content: string, tail: string)
    ensures |EncodePart(name, content) + tail| >= |DASHED| && (EncodePart(name, content) + tail)[..|DASHED|] == DASHED
  {
    hide BOUNDARY, DASHED;
  }

  /** Reading a generated text, from any part on. */
  lemma {:induction false} DecodeEncoded(parts: Parts, keys: seq<string>, glue: string, result: Parts)
    requires forall k :: k in keys ==> k in parts && NameOk(k) && ContentOk(parts[k].content)
    requires glue == "" || glue == "\r\n"
    ensures Decode(glue + Encode(parts, keys), result) == Listed(parts, keys, result)
    decreases |keys|
  {
    if keys == [] {
      DecodeEnd(glue, result);
    } else {
      var name, content := keys[0], parts[keys[0]].content;
      EncodeBegins(parts, keys[1..]);
      DecodeOnePart(name, content, glue, Encode(parts, keys[1..]), result);
      DecodeEncoded(parts, keys[1..], "\r\n", result[name := Part(name, content)]);
      hide Decode, EncodePart, BOUNDARY, DASHED, DELIMITER, NameOk, ContentOk;
    }
  }

  /** The closing delimiter ends the reading. */
  lemma DecodeEnd(glue: string, result: Parts)
    requires glue == "" || glue == "\r\n"
    ensures Decode(glue + (DASHED + "--"), result) == result
  {
    DelimiterShape();
    hide BOUNDARY, DASHED, DELIMITER;
    assert (DASHED + "--")[..|DASHED|] == DASHED;
    FindBoundary(glue, DASHED + "--");
    assert (glue + (DASHED + "--"))[|glue| + |DASHED|..] == "--";
    assert Find("--", DELIMITER, 0) == None;
  }

  lemma EncodedRest(name: string, content: string, tail: string, rest: string, glue: string, text: string)
    requires |tail| >= |DASHED| && tail[..|DASHED|] == DASHED && |text| >= |glue| + |DASHED|
    requires text == glue + (EncodePart(name, content) + tail) && rest == text[|glue| + |DASHED|..]
    ensures rest == Body(name, content) + DELIMITER + tail[|DASHED|..]
    ensures rest == Body(name, content) + ("\r\n" + tail)
  {
    DelimiterShape();
    hide BOUNDARY, DASHED, DELIMITER, DISPOSITION;
    assert tail == DASHED + tail[|DASHED|..];
    assert EncodePart(name, content) == DASHED + (Body(name, content) + "\r\n");
  }

  /** The codec carries a map of parts exactly when every part can be carried: the key is the part's name,
      the name holds no quote, blank line or delimiter, and the content with its leading line break holds
      no delimiter. */
  lemma RoundTripIff(parts: Parts, keys: seq<string>)
    requires Enumerates(keys, parts)
    ensures Decode(Encode(parts, keys), map[]) == parts <==> Carriable(parts)
  {
    var read := Decode(Encode(parts, keys), map[]);
    DecodedIsCarriable(Encode(parts, keys), map[]);
    if Carriable(parts) {
      forall k | k in keys ensures NameOk(k) && ContentOk(parts[k].content) {
        assert PartOk(k, parts[k]);
      }
      assert "" + Encode(parts, keys) == Encode(parts, keys);
      DecodeEncoded(parts, keys, "", map[]);
      forall k: string ensures k in read <==> k in parts {
        ListedIs(parts, keys, map[], k);
      }
      forall k | k in parts ensures read[k] == parts[k] {
        ListedIs(parts, keys, map[], k);
        assert PartOk(k, parts[k]);
      }
    }
  }

  /** Reading any text at all and writing the result gives a text that reads the same. */
  lemma Normalisation(data: string, keys: seq<string>)
    requires Enumerates(keys, Decode(data, map[]))
    ensures Decode(Encode(Decode(data, map[]), keys), map[]) == Decode(data, map[])
  {
    DecodedIsCarriable(data, map[]);
    RoundTripIff(Decode(data, map[]), keys);
  }

  // ---- The format, and what any text is read as ----

  /** The text of one part, spelled out. */
  lemma GeneratedText(name: string, content: string)
    ensures Encode(map[name := Part(name, content)], [name])
         == "--" + BOUNDARY + "\r\n" + "Content-Disposition: form-data; name=\"" + name + "\"\r\n" + "\r\n"
            + content + "\r\n" + "--" + BOUNDARY + "--"
  {
    hide BOUNDARY;
    var parts := map[name := Part(name, content)];
    assert Encode(parts, [name]) == EncodePart(name, content) + Encode(parts, [name][1..]);
    assert [name][1..] == [];
    assert DISPOSITION + NAME == "Content-Disposition: form-data; name=\"";
  }

  /** Pieces with a delimiter between any two. */
  function Joined(pieces: seq<string>): string {
    if pieces == [] then ""
    else if |pieces| == 1 then pieces[0]
    else pieces[0] + DELIMITER + Joined(pieces[1..])
  }

  ghost predicate Unbroken(pieces: seq<string>) {
    forall piece <- pieces :: !Contains(piece, DELIMITER)
  }

  function AddAll(pieces: seq<string>, result: Parts): Parts {
    if pieces == [] then result else AddAll(pieces[1..], AddPart(pieces[0], result))
  }

  lemma DecodeStep(pre: string, rest: string, result: Parts)
    requires Find(pre + (DASHED + rest), DASHED, 0) == Some(|pre|)
    ensures Decode(pre + (DASHED + rest), result)
         == match Find(rest, DELIMITER, 0)
            case None => result
            case Some(end) => Decode(rest[end..], AddPart(rest[..end], result))
  {
    hide Find, AddPart, BOUNDARY, DASHED, DELIMITER;
    assert (pre + (DASHED + rest))[|pre| + |DASHED|..] == rest;
  }

  /** After the first boundary a text is cut at its delimiters; the pieces between them are the parts, and what
      follows the last delimiter is not read. */
  lemma {:induction false} DecodePieces(pre: string, pieces: seq<string>, result: Parts)
    requires pieces != [] && Unbroken(pieces)
    requires Find(pre + (DASHED + Joined(pieces)), DASHED, 0) == Some(|pre|)
    ensures Decode(pre + (DASHED + Joined(pieces)), result) == AddAll(pieces[..|pieces| - 1], result)
    decreases |pieces|
  {
    hide Find, AddPart, BOUNDARY, DASHED, DELIMITER;
    var rest := Joined(pieces);
    DecodeStep(pre, rest, result);
    if |pieces| == 1 {
      assert pieces[0] in pieces && rest == pieces[0];
      NotFound(rest);
      assert pieces[..0] == [];
    } else {
      var tail := Joined(pieces[1..]);
      assert pieces[0] in pieces && rest == pieces[0] + DELIMITER + tail;
      CutAtDelimiter(pieces[0], tail);
      DelimiterShape();
      assert rest[..|pieces[0]|] == pieces[0];
      assert rest[|pieces[0]|..] == "\r\n" + (DASHED + tail);
      assert (DASHED + tail)[..|DASHED|] == DASHED;
      FindBoundary("\r\n", DASHED + tail);
      assert forall piece <- pieces[1..] :: piece in pieces;
      DecodePieces("\r\n", pieces[1..], AddPart(pieces[0], result));
      assert pieces[..|pieces| - 1][1..] == pieces[1..][..|pieces| - 2];
    }
  }

  lemma NotFound(text: string)
    requires !Contains(text, DELIMITER)
    ensures Find(text, DELIMITER, 0) == None
  {
    hide BOUNDARY, DASHED, DELIMITER;
    assert forall i: nat :: !MatchesAt(text, DELIMITER, i);
  }

  lemma {:induction false} Split(rest: string) returns (pieces: seq<string>)
    ensures pieces != [] && Unbroken(pieces) && Joined(pieces) == rest
    decreases |rest|
  {
    DelimiterShape();
    hide BOUNDARY, DASHED, DELIMITER;
    var r := Find(rest, DELIMITER, 0);
    if r.None? {
      pieces := [rest];
    } else {
      BeforeFirstMatch(rest, DELIMITER, r.value);
      var after := rest[r.value + |DELIMITER|..];
      var later := Split(after);
      pieces := [rest[..r.value]] + later;
      assert pieces[1..] == later;
      assert rest == rest[..r.value] + DELIMITER + after;
    }
  }

  /** Every text either has no boundary, and then no parts, or is read by its pieces. */
  lemma EveryTextHasPieces(text: string) returns (pre: string, pieces: seq<string>)
    ensures Find(text, DASHED, 0).None? ==> Decode(text, map[]) == map[]
    ensures Find(text, DASHED, 0).Some? ==>
      && pieces != [] && Unbroken(pieces) && text == pre + (DASHED + Joined(pieces))
      && Find(text, DASHED, 0) == Some(|pre|) && Decode(text, map[]) == AddAll(pieces[..|pieces| - 1], map[])
  {
    pre, pieces := "", [];
    var r := Find(text, DASHED, 0);
    if r.Some? {
      pre := text[..r.value];
      hide BOUNDARY, DASHED, DELIMITER;
      pieces := Split(text[r.value + |DASHED|..]);
      assert text == pre + (DASHED + Joined(pieces));
      DecodePieces(pre, pieces, map[]);
    }
  }

  /** A piece written as a header up to its first blank line, in which the first name= is followed by a quoted name. */
  predicate Written(text: string, pre: string, name: string, post: string, content: string) {
    var header := pre + NAME + (name + "\"" + post);
    && text == header + BLANK + content && '"' !in name
    && Find(text, BLANK, 0) == Some(|header|) && Find(header, NAME, 0) == Some(|pre|)
  }

  lemma WrittenIsRead(text: string, pre: string, name: string, post: string, content: string)
    requires Written(text, pre, name, post, content)
    ensures FormPart(text) == Some(Part(name, content))
  {
    var header := pre + NAME + (name + "\"" + post);
    hide Find;
    assert text[..|header|] == header && text[|header| + 4..] == content;
    var q := |pre| + 6 + |name|;
    assert header[|pre| + 6..q] == name && header[q] == '"';
    forall i: nat | |pre| + 6 <= i < q ensures !MatchesAt(header, "\"", i) {
      assert header[i] == name[i - |pre| - 6];
      assert header[i..i + 1] == [header[i]];
    }
    assert header[q..q + 1] == "\"";
    assert MatchesAt(header, "\"", q);
    FindFirst(header, "\"", |pre| + 6, q);
  }

  lemma NameHasNoQuote(header: string, from: nat, to: nat)
    requires from <= to <= |header| && forall i: nat :: from <= i < to ==> !MatchesAt(header, "\"", i)
    ensures '"' !in header[from..to]
  {
    forall k | from <= k < to ensures header[k] != '"' {
      assert header[k..k + 1] == [header[k]];
      assert !MatchesAt(header, "\"", k);
    }
  }

  lemma ReadIsWritten(text: string, part: Part) returns (pre: string, post: string)
    requires FormPart(text) == Some(part)
    ensures Written(text, pre, part.name, post, part.content)
  {
    var headerEnd := Find(text, BLANK, 0).value;
    var header := text[..headerEnd];
    var namePos := Find(header, NAME, 0).value;
    var nameEnd := Find(header, "\"", namePos + 6).value;
    pre, post := header[..namePos], header[nameEnd + 1..];
    assert part.name == header[namePos + 6..nameEnd] && part.content == text[headerEnd + 4..];
    assert MatchesAt(text, BLANK, headerEnd) && MatchesAt(header, NAME, namePos);
    NameHasNoQuote(header, namePos + 6, nameEnd);
    assert MatchesAt(header, "\"", nameEnd);
    hide Find, FormPart, BLANK, NAME;
    HeaderJoins(header, NAME, namePos, nameEnd);
    TextJoins(text, BLANK, headerEnd);
  }

  lemma HeaderJoins(header: string, key: string, at: nat, end: nat)
    requires at + |key| <= end < |header| && header[at..at + |key|] == key && MatchesAt(header, "\"", end)
    ensures header == header[..at] + key + (header[at + |key|..end] + "\"" + header[end + 1..])
  {
    assert header[end..end + 1] == "\"";
  }

  lemma TextJoins(text: string, blank: string, at: nat)
    requires MatchesAt(text, blank, at)
    ensures text == text[..at] + blank + text[at + |blank|..]
  {
  }
}
