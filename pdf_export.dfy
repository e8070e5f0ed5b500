/**
 * The PDF export of the analytics dashboard (components/AnalyticsDashboard.tsx):
 * `escapePdfText` for literal strings (section 7.3.4.2 of ISO 32000-1) and
 * `createPdfDocument`, which writes a one-page PDF 1.4 file of five objects and
 * a cross-reference table whose offsets are byte positions in the UTF-8 output
 * (sections 7.5.4 and 7.5.5 of ISO 32000-1). `TextEncoder.encode` is `Utf8`.
 */
module PdfExport {
  import opened Wrappers
  import opened Strings

  newtype byte = x: int | 0 <= x < 256

  // ---------------------------------------------------------------------------
  // UTF-8, as `TextEncoder` writes it.

  function Utf8Char(c: char): (b: seq<byte>)
    ensures 1 <= |b| <= 4
    ensures |b| == 1 <==> c as int < 0x80
  {
    var n := c as int;
    if n < 0x80 then [n as byte]
    else if n < 0x800 then [(0xC0 + n / 64) as byte, (0x80 + n % 64) as byte]
    else if n < 0x10000 then [(0xE0 + n / 4096) as byte, (0x80 + (n / 64) % 64) as byte, (0x80 + n % 64) as byte]
    else [(0xF0 + n / 262144) as byte, (0x80 + (n / 4096) % 64) as byte, (0x80 + (n / 64) % 64) as byte, (0x80 + n % 64) as byte]
  }

  function Utf8(s: string): seq<byte> {
    if s == [] then [] else Utf8Char(s[0]) + Utf8(s[1..])
  }

  lemma {:induction false} Utf8Concat(a: string, b: string)
    ensures Utf8(a + b) == Utf8(a) + Utf8(b)
  {
    if a == [] {
      assert a + b == b;
    } else {
      assert (a + b)[0] == a[0];
      assert (a + b)[1..] == a[1..] + b;
      Utf8Concat(a[1..], b);
    }
  }

  /** Text made of ASCII characters takes one byte per character. */
  lemma {:induction false} AsciiLength(s: string)
    requires forall k :: 0 <= k < |s| ==> s[k] as int < 0x80
    ensures |Utf8(s)| == |s|
  {
    if s != [] {
      AsciiLength(s[1..]);
    }
  }

  /** The bytes of a text cut in three are the bytes of the three parts. */
  lemma Utf8Three(text: string, pre: string, key: string, post: string)
    requires text == pre + key + post
    ensures Utf8(text) == Utf8(pre) + Utf8(key) + Utf8(post)
  {
    Utf8Concat(pre + key, post);
    Utf8Concat(pre, key);
  }

  lemma MiddleSlice<T>(t: seq<T>, a: seq<T>, b: seq<T>, r: seq<T>)
    requires t == a + b + r
    ensures |a| + |b| <= |t|
    ensures t[|a|..|a| + |b|] == b
  {
    assert t[|a|..|a| + |b|] == (a + b + r)[|a|..|a| + |b|];
  }

  /** In a text cut as `pre + key + post`, the bytes of `key` sit right after the bytes of `pre`. */
  lemma BytesAt(text: string, pre: string, key: string, post: string)
    requires text == pre + key + post
    ensures |Utf8(pre)| + |Utf8(key)| <= |Utf8(text)|
    ensures Utf8(text)[|Utf8(pre)|..|Utf8(pre)| + |Utf8(key)|] == Utf8(key)
  {
    Utf8Three(text, pre, key, post);
    MiddleSlice(Utf8(text), Utf8(pre), Utf8(key), Utf8(post));
  }

  // ---------------------------------------------------------------------------
  // Literal strings.

  /**
   * `escapePdfText`: three passes, backslashes first, then `(`, then `)`.
   */
  function EscapePdfText(value: string): string {
    ReplaceChar(ReplaceChar(ReplaceChar(value, '\\', "\\\\"), '(', "\\("), ')', "\\)")
  }

  /** What escaping does to one character. */
  function EscapeChar(c: char): (r: string)
    ensures c == '\\' || c == '(' || c == ')' ==> r == ['\\', c]
    ensures !(c == '\\' || c == '(' || c == ')') ==> r == [c]
  {
    if c == '\\' || c == '(' || c == ')' then ['\\', c] else [c]
  }

  /** The escape applied character by character: the reference the three passes are checked against. */
  function EscapeChars(s: string): string {
    if s == [] then [] else EscapeChar(s[0]) + EscapeChars(s[1..])
  }

  /**
   * Doing backslashes first makes the three passes one character-wise escape:
   * the backslashes the later passes add are not escaped again.
   */
  lemma {:induction false} EscapeInOrder(s: string)
    ensures EscapePdfText(s) == EscapeChars(s)
  {
    if s != [] {
      var c := s[0];
      var rest := s[1..];
      assert s == [c] + rest;
      EscapeInOrder(rest);
      var p1 := if c == '\\' then "\\\\" else [c];
      ReplaceCharConcat([c], rest, '\\', "\\\\");
      assert ReplaceChar([c], '\\', "\\\\") == p1;
      var r1 := ReplaceChar(rest, '\\', "\\\\");
      var p2 := ReplaceChar(p1, '(', "\\(");
      ReplaceCharConcat(p1, r1, '(', "\\(");
      var r2 := ReplaceChar(r1, '(', "\\(");
      ReplaceCharConcat(p2, r2, ')', "\\)");
      EscapeCharPasses(c);
    }
  }

  lemma EscapeCharPasses(c: char)
    ensures ReplaceChar(ReplaceChar(if c == '\\' then "\\\\" else [c], '(', "\\("), ')', "\\)") == EscapeChar(c)
  {
    if c == '\\' {
      assert ReplaceChar("\\\\", '(', "\\(") == "\\\\";
      assert ReplaceChar("\\\\", ')', "\\)") == "\\\\";
    } else if c == '(' {
      assert ReplaceChar("(", '(', "\\(") == "\\(";
      assert ReplaceChar("\\(", ')', "\\)") == "\\(";
    } else if c == ')' {
      assert ReplaceChar(")", '(', "\\(") == ")";
      assert ReplaceChar(")", ')', "\\)") == "\\)";
    } else {
      assert ReplaceChar([c], '(', "\\(") == [c];
      assert ReplaceChar([c], ')', "\\)") == [c];
    }
  }

  /**
   * Escaped text is a run of plain characters and two-character escapes, where
   * no parenthesis or backslash stands alone.
   */
  predicate Escaped(t: string)
    decreases |t|
  {
    if t == [] then true
    else if t[0] == '\\' then |t| >= 2 && (t[1] == '\\' || t[1] == '(' || t[1] == ')') && Escaped(t[2..])
    else t[0] != '(' && t[0] != ')' && Escaped(t[1..])
  }

  lemma {:induction false} EscapedConcat(c: char, rest: string)
    requires Escaped(rest)
    ensures Escaped(EscapeChar(c) + rest)
  {
    var t := EscapeChar(c) + rest;
    if c == '\\' || c == '(' || c == ')' {
      assert t[2..] == rest;
    } else {
      assert t[1..] == rest;
    }
  }

  /** Every `(`, `)` and `\` of the input comes out behind a backslash. */
  lemma {:induction false} EscapePdfTextEscaped(s: string)
    ensures Escaped(EscapePdfText(s))
  {
    EscapeInOrder(s);
    EscapeCharsEscaped(s);
  }

  lemma {:induction false} EscapeCharsEscaped(s: string)
    ensures Escaped(EscapeChars(s))
  {
    if s != [] {
      EscapeCharsEscaped(s[1..]);
      EscapedConcat(s[0], EscapeChars(s[1..]));
    }
  }

  /**
   * How a reader takes the bytes between the parentheses of a literal string: the
   * escapes of Table 3 of ISO 32000-1, an end-of-line (CR, CR LF or LF) read as LF,
   * a backslash before any other character ignored. Octal escapes and a backslash
   * before an end-of-line are refused (`None`) here.
   */
  function ReadLiteral(t: string): Option<string>
    decreases |t|
  {
    if t == [] then Some([])
    else if t[0] == '\\' then
      if |t| == 1 then None
      else
        var c := t[1];
        if '0' <= c <= '7' || c == '\r' || c == '\n' then None
        else
          var v := if c == 'n' then '\n' else if c == 'r' then '\r' else if c == 't' then '\t'
                   else if c == 'b' then '\U{0008}' else if c == 'f' then '\U{000C}' else c;
          match ReadLiteral(t[2..])
          case None => None
          case Some(r) => Some([v] + r)
    else if t[0] == '\r' then
      var skip := if |t| >= 2 && t[1] == '\n' then 2 else 1;
      match ReadLiteral(t[skip..])
      case None => None
      case Some(r) => Some(['\n'] + r)
    else
      match ReadLiteral(t[1..])
      case None => None
      case Some(r) => Some([t[0]] + r)
  }

  /**
   * A reader gets the text back; a carriage return is the exception, since the
   * escape leaves it as it is and a reader takes it for an end-of-line.
   */
  lemma {:induction false} EscapeRoundTrip(s: string)
    requires '\r' !in s
    ensures ReadLiteral(EscapePdfText(s)) == Some(s)
  {
    EscapeInOrder(s);
    EscapeCharsRoundTrip(s);
  }

  lemma {:induction false} EscapeCharsRoundTrip(s: string)
    requires '\r' !in s
    ensures ReadLiteral(EscapeChars(s)) == Some(s)
  {
    if s != [] {
      assert s == [s[0]] + s[1..];
      EscapeCharsRoundTrip(s[1..]);
      ReadEscapedChar(s[0], EscapeChars(s[1..]), s[1..]);
    }
  }

  lemma ReadEscapedChar(c: char, rest: string, r: string)
    requires c != '\r'
    requires ReadLiteral(rest) == Some(r)
    ensures ReadLiteral(EscapeChar(c) + rest) == Some([c] + r)
  {
    var t := EscapeChar(c) + rest;
    if c == '\\' || c == '(' || c == ')' {
      assert t[2..] == rest;
    } else {
      assert t[1..] == rest;
    }
  }

  /** A carriage return in a line reads back as a line feed. */
  lemma CarriageReturnReadsAsLineFeed()
    ensures ReadLiteral(EscapePdfText("\r")) == Some("\n")
  {
    EscapeInOrder("\r");
    assert "\r"[1..] == [];
    assert EscapeChars("\r") == "\r";
    var e := EscapePdfText("\r");
    assert e == "\r";
    assert e[1..] == [];
    assert ReadLiteral(e[1..]) == Some([]);
    assert ['\n'] + [] == "\n";
  }

  // ---------------------------------------------------------------------------
  // The document.

  const Header: string := "%PDF-1.4\n"

  /** One text line of the page: the first is shown, the others moved down a line first. */
  function TextLine(index: nat, line: string): string {
    if index == 0 then "(" + EscapePdfText(line) + ") Tj" else "T* (" + EscapePdfText(line) + ") Tj"
  }

  function TextLines(lines: seq<string>): (r: seq<string>)
    ensures |r| == |lines| && forall i :: 0 <= i < |lines| ==> r[i] == TextLine(i, lines[i])
  {
    seq(|lines|, i requires 0 <= i < |lines| => TextLine(i, lines[i]))
  }

  /** The page's content stream. */
  function ContentStream(lines: seq<string>): string {
    Join(["BT", "/F1 12 Tf", "14 TL", "72 780 Td"] + TextLines(lines) + ["ET"], "\n")
  }

  /** The stream object's dictionary: its `/Length` is the byte count of the stream data. */
  function StreamObject(content: string): string {
    "<< /Length " + NatStr(|Utf8(content)|) + " >>\nstream\n" + content + "\nendstream"
  }

  /** Catalog, page tree, page, content stream, font, as objects 1 to 5. */
  function PdfObjects(content: string): (objs: seq<string>)
    ensures |objs| == 5
  {
    [ "<< /Type /Catalog /Pages 2 0 R >>",
      "<< /Type /Pages /Kids [3 0 R] /Count 1 >>",
      "<< /Type /Page /Parent 2 0 R /MediaBox [0 0 612 792] /Contents 4 0 R /Resources << /Font << /F1 5 0 R >> >> >>",
      StreamObject(content),
      "<< /Type /Font /Subtype /Type1 /BaseFont /Helvetica >>" ]
  }

  /** The object line opening object `index + 1`. */
  function ObjectLabel(index: nat): string {
    NatStr(index + 1) + " 0 obj"
  }

  /** Object `index + 1` as it is written. */
  function ObjectString(index: nat, obj: string): string {
    ObjectLabel(index) + "\n" + obj + "\nendobj\n"
  }

  /** The first `k` objects, written one after the other. */
  function Body(objs: seq<string>, k: nat): string
    requires k <= |objs|
  {
    if k == 0 then "" else Body(objs, k - 1) + ObjectString(k - 1, objs[k - 1])
  }

  /** The byte position at which object `index + 1` starts. */
  function ObjectOffset(objs: seq<string>, index: nat): nat
    requires index <= |objs|
  {
    |Utf8(Header + Body(objs, index))|
  }

  function ObjectOffsets(objs: seq<string>): (r: seq<nat>)
    ensures |r| == |objs| && forall j :: 0 <= j < |objs| ==> r[j] == ObjectOffset(objs, j)
  {
    seq(|objs|, j requires 0 <= j < |objs| => ObjectOffset(objs, j))
  }

  /** One in-use entry of the table: a 10-digit offset, generation 0, `n`. */
  function XrefEntry(offset: nat): string {
    PadStart(NatStr(offset), 10, '0') + " 00000 n \n"
  }

  function XrefEntries(offsets: seq<nat>): string {
    if offsets == [] then "" else XrefEntries(offsets[..|offsets| - 1]) + XrefEntry(offsets[|offsets| - 1])
  }

  /** The free entry for object 0. */
  const FreeEntry: string := "0000000000 65535 f \n"

  /** The `xref` keyword, the table and the trailer, then where the table starts. */
  function XrefSection(offsets: seq<nat>, xrefPosition: nat): string {
    "xref" + XrefTableText(offsets) + StartXref(xrefPosition)
  }

  /** What follows the `xref` keyword up to `startxref`: one subsection of objects 0 to 5, the trailer. */
  function XrefTableText(offsets: seq<nat>): string {
    "\n0 6\n" + FreeEntry + XrefEntries(offsets) + "trailer\n<< /Root 1 0 R /Size 6 >>\n"
  }

  /** The file's last lines. */
  function StartXref(xrefPosition: nat): string {
    "startxref\n" + NatStr(xrefPosition) + "\n%%EOF"
  }

  /** Where the cross-reference section starts: right after the last object. */
  function XrefPosition(objs: seq<string>): nat {
    ObjectOffset(objs, |objs|)
  }

  /** A file holding `objs`: header, objects, cross-reference section. */
  function FileText(objs: seq<string>): string {
    Header + Body(objs, |objs|) + XrefSection(ObjectOffsets(objs), XrefPosition(objs))
  }

  function FileBytes(objs: seq<string>): seq<byte> {
    Utf8(FileText(objs))
  }

  /** The whole file as text. */
  function PdfText(lines: seq<string>): string {
    FileText(PdfObjects(ContentStream(lines)))
  }

  /** The whole file as bytes. */
  function PdfBytes(lines: seq<string>): seq<byte> {
    Utf8(PdfText(lines))
  }

  /** `createPdfDocument`, step by step as written. */
  method CreatePdfDocument(lines: seq<string>) returns (bytes: seq<byte>)
    ensures bytes == PdfBytes(lines)
  {
    var contentLines := ContentStream(lines);
    var objects := PdfObjects(contentLines);
    var pdf := WriteFile(objects);
    bytes := Utf8(pdf);
  }

  /** The objects after the header, then the cross-reference section pointing at them. */
  method WriteFile(objects: seq<string>) returns (pdf: string)
    ensures pdf == FileText(objects)
  {
    var offsets, xrefPosition;
    pdf, offsets, xrefPosition := WriteObjects(objects);
    var xref := WriteXref(offsets, xrefPosition);
    Assembled(objects, pdf, offsets, xrefPosition, xref);
    pdf := pdf + xref;
  }

  lemma Assembled(objects: seq<string>, pdf: string, offsets: seq<nat>, pos: nat, xref: string)
    requires pdf == Header + Body(objects, |objects|)
    requires offsets == [0] + ObjectOffsets(objects)
    requires pos == ObjectOffset(objects, |objects|)
    requires xref == XrefSection(offsets[1..], pos)
    ensures pdf + xref == FileText(objects)
  {
    assert offsets[1..] == ObjectOffsets(objects);
  }

  /** The `objects.forEach` pass: each object written after the header, its start recorded. */
  method WriteObjects(objects: seq<string>) returns (pdf: string, offsets: seq<nat>, currentOffset: nat)
    ensures pdf == Header + Body(objects, |objects|)
    ensures offsets == [0] + ObjectOffsets(objects)
    ensures currentOffset == ObjectOffset(objects, |objects|)
  {
    pdf := Header;
    offsets := [0];
    currentOffset := |Utf8(pdf)|;
    var index := 0;
    WrittenStart(objects);
    while index < |objects|
      invariant index <= |objects|
      invariant Written(objects, index, pdf, offsets, currentOffset)
    {
      var objectString := NatStr(index + 1) + " 0 obj\n" + objects[index] + "\nendobj\n";
      WrittenNext(objects, index, pdf, offsets, currentOffset, objectString);
      offsets := offsets + [currentOffset];
      pdf := pdf + objectString;
      currentOffset := currentOffset + |Utf8(objectString)|;
      index := index + 1;
    }
    WrittenAll(objects, pdf, offsets, currentOffset);
  }

  /** The state of `createPdfDocument` after the first `index` objects. */
  predicate Written(objects: seq<string>, index: nat, pdf: string, offsets: seq<nat>, currentOffset: nat)
    requires index <= |objects|
  {
    && pdf == Header + Body(objects, index)
    && currentOffset == |Utf8(pdf)|
    && |offsets| == index + 1 && offsets[0] == 0
    && forall j :: 0 <= j < index ==> offsets[j + 1] == ObjectOffset(objects, j)
  }

  lemma WrittenStart(objects: seq<string>)
    ensures Written(objects, 0, Header, [0], |Utf8(Header)|)
  {
  }

  /** One pass of the loop: the object written as the source spells it keeps `Written`. */
  lemma WrittenNext(objects: seq<string>, index: nat, pdf: string, offsets: seq<nat>, currentOffset: nat,
                    objectString: string)
    requires index < |objects| && Written(objects, index, pdf, offsets, currentOffset)
    requires objectString == NatStr(index + 1) + " 0 obj\n" + objects[index] + "\nendobj\n"
    ensures Written(objects, index + 1, pdf + objectString, offsets + [currentOffset],
      currentOffset + |Utf8(objectString)|)
  {
    ObjectStringForm(index, objects[index]);
    WrittenStep(objects, index, pdf, offsets, currentOffset);
  }

  lemma WrittenStep(objects: seq<string>, index: nat, pdf: string, offsets: seq<nat>, currentOffset: nat)
    requires index < |objects| && Written(objects, index, pdf, offsets, currentOffset)
    ensures var objectString := ObjectString(index, objects[index]);
      Written(objects, index + 1, pdf + objectString, offsets + [currentOffset],
        currentOffset + |Utf8(objectString)|)
  {
    var objectString := ObjectString(index, objects[index]);
    BodyStep(objects, index);
    Utf8Concat(pdf, objectString);
  }

  lemma WrittenAll(objects: seq<string>, pdf: string, offsets: seq<nat>, currentOffset: nat)
    requires Written(objects, |objects|, pdf, offsets, currentOffset)
    ensures pdf == Header + Body(objects, |objects|)
    ensures offsets == [0] + ObjectOffsets(objects)
    ensures currentOffset == ObjectOffset(objects, |objects|)
  {
    var recorded := ObjectOffsets(objects);
    forall i | 0 <= i < |recorded| ensures offsets[i + 1] == recorded[i] {
    }
    ConsShape(offsets, recorded);
  }

  lemma ConsShape(offsets: seq<nat>, rest: seq<nat>)
    requires |offsets| == |rest| + 1 && offsets[0] == 0
    requires forall i :: 0 <= i < |rest| ==> offsets[i + 1] == rest[i]
    ensures offsets == [0] + rest
  {
    forall i | 0 <= i < |offsets| ensures offsets[i] == ([0] + rest)[i] {
      if i > 0 {
        assert offsets[(i - 1) + 1] == rest[i - 1];
      }
    }
  }

  /** The cross-reference section: the free entry, one entry per recorded offset after the first, the trailer. */
  method WriteXref(offsets: seq<nat>, xrefPosition: nat) returns (xref: string)
    requires |offsets| >= 1
    ensures xref == XrefSection(offsets[1..], xrefPosition)
  {
    xref := "xref\n0 6\n";
    xref := xref + "0000000000 65535 f \n";
    var index := 1;
    while index < |offsets|
      invariant 1 <= index <= |offsets|
      invariant xref == XrefHead + XrefEntries(offsets[1..index])
    {
      AppendEntry(xref, offsets, index);
      xref := xref + PadStart(NatStr(offsets[index]), 10, '0') + " 00000 n \n";
      index := index + 1;
    }
    XrefFinish(offsets, xref, xrefPosition);
    xref := xref + "trailer\n<< /Root 1 0 R /Size 6 >>\nstartxref\n" + NatStr(xrefPosition) + "\n%%EOF";
  }

  lemma XrefFinish(offsets: seq<nat>, xref: string, pos: nat)
    requires |offsets| >= 1 && xref == XrefHead + XrefEntries(offsets[1..|offsets|])
    ensures xref + "trailer\n<< /Root 1 0 R /Size 6 >>\nstartxref\n" + NatStr(pos) + "\n%%EOF"
      == XrefSection(offsets[1..], pos)
  {
    assert offsets[1..|offsets|] == offsets[1..];
    assert XrefHead == "xref\n0 6\n" + FreeEntry;
    XrefSectionForm(offsets[1..], pos);
  }

  const XrefHead: string := "xref\n0 6\n" + FreeEntry

  lemma ObjectStringForm(index: nat, obj: string)
    ensures NatStr(index + 1) + " 0 obj\n" + obj + "\nendobj\n" == ObjectString(index, obj)
  {
    assert " 0 obj\n" == " 0 obj" + "\n";
  }

  lemma BodyStep(objs: seq<string>, i: nat)
    requires i < |objs|
    ensures Header + Body(objs, i + 1) == (Header + Body(objs, i)) + ObjectString(i, objs[i])
  {
  }

  lemma XrefEntriesStep(offs: seq<nat>, k: nat)
    requires 1 <= k < |offs|
    ensures XrefEntries(offs[1..k + 1]) == XrefEntries(offs[1..k]) + XrefEntry(offs[k])
  {
    assert offs[1..k + 1][..k - 1] == offs[1..k];
  }

  lemma AppendEntry(xref: string, offs: seq<nat>, k: nat)
    requires 1 <= k < |offs| && xref == XrefHead + XrefEntries(offs[1..k])
    ensures xref + PadStart(NatStr(offs[k]), 10, '0') + " 00000 n \n" == XrefHead + XrefEntries(offs[1..k + 1])
  {
    XrefEntriesStep(offs, k);
    AppendAssoc(xref, XrefHead, XrefEntries(offs[1..k]), PadStart(NatStr(offs[k]), 10, '0'), " 00000 n \n");
  }

  lemma AppendAssoc(x: string, h: string, e: string, p: string, l: string)
    requires x == h + e
    ensures x + p + l == h + (e + (p + l))
  {
  }

  // ---------------------------------------------------------------------------
  // What the cross-reference table promises.

  /** Objects `j` to `k - 1` (counting from 0), written one after the other. */
  function Between(objs: seq<string>, j: nat, k: nat): string
    requires j <= k <= |objs|
    decreases k - j
  {
    if j == k then "" else Between(objs, j, k - 1) + ObjectString(k - 1, objs[k - 1])
  }

  lemma {:induction false} BodySplit(objs: seq<string>, j: nat, k: nat)
    requires j <= k <= |objs|
    ensures Body(objs, k) == Body(objs, j) + Between(objs, j, k)
    decreases k - j
  {
    if j < k {
      BodySplit(objs, j, k - 1);
      assert Body(objs, k) == Body(objs, k - 1) + ObjectString(k - 1, objs[k - 1]);
    }
  }

  /** In a text cut as `p + c + d + r`, the bytes of `c` follow those of `p`, and the bytes of `d` those of `p + c`. */
  lemma Utf8Parts(p: string, c: string, d: string, r: string)
    ensures |Utf8(p)| + |Utf8(c)| <= |Utf8(p + c + d + r)|
    ensures Utf8(p + c + d + r)[|Utf8(p)|..|Utf8(p)| + |Utf8(c)|] == Utf8(c)
    ensures |Utf8(p + c)| + |Utf8(d)| <= |Utf8(p + c + d + r)|
    ensures Utf8(p + c + d + r)[|Utf8(p + c)|..|Utf8(p + c)| + |Utf8(d)|] == Utf8(d)
  {
    BytesAt(p + c + d + r, p, c, d + r);
    BytesAt(p + c + d + r, p + c, d, r);
  }

  lemma ObjectStringSplit(j: nat, obj: string)
    ensures ObjectString(j, obj) == ObjectLabel(j) + ("\n" + obj + "\nendobj\n")
  {
  }

  /** The text of a file, cut at the label of object `j + 1`. */
  lemma ObjectSplit(hdr: string, objs: seq<string>, tail: string, j: nat)
    requires j < |objs|
    ensures hdr + Body(objs, |objs|) + tail
      == (hdr + Body(objs, j)) + ObjectLabel(j)
         + ("\n" + objs[j] + "\nendobj\n" + Between(objs, j + 1, |objs|) + tail)
  {
    BodySplit(objs, j + 1, |objs|);
    ObjectStringSplit(j, objs[j]);
    Regroup(hdr, Body(objs, |objs|), Body(objs, j + 1), Body(objs, j), ObjectString(j, objs[j]),
      ObjectLabel(j), "\n" + objs[j] + "\nendobj\n", Between(objs, j + 1, |objs|), tail);
  }

  /** Cutting `h + bn + t` where `bn` is `bj + (l + r) + bt`. */
  lemma Regroup(h: string, bn: string, bj1: string, bj: string, os: string, l: string, r: string, bt: string, t: string)
    requires bn == bj1 + bt && bj1 == bj + os && os == l + r
    ensures h + bn + t == (h + bj) + l + (r + bt + t)
  {
  }

  /** For any header, objects and tail: object `j + 1`'s label starts at its offset. */
  lemma ObjectAtGeneric(hdr: string, objs: seq<string>, tail: string, j: nat)
    requires j < |objs|
    ensures var text := hdr + Body(objs, |objs|) + tail;
      var o := |Utf8(hdr + Body(objs, j))|;
      && o + |Utf8(ObjectLabel(j))| <= |Utf8(text)|
      && Utf8(text)[o..o + |Utf8(ObjectLabel(j))|] == Utf8(ObjectLabel(j))
  {
    ObjectSplit(hdr, objs, tail, j);
    BytesAt(hdr + Body(objs, |objs|) + tail, hdr + Body(objs, j), ObjectLabel(j),
      "\n" + objs[j] + "\nendobj\n" + Between(objs, j + 1, |objs|) + tail);
  }

  /** The offset recorded for object `j + 1` is the byte position of its `j+1 0 obj` line in the file. */
  lemma ObjectAtOffset(objs: seq<string>, j: nat)
    requires j < |objs|
    ensures ObjectOffset(objs, j) + |Utf8(ObjectLabel(j))| <= |FileBytes(objs)|
    ensures FileBytes(objs)[ObjectOffset(objs, j)..ObjectOffset(objs, j) + |Utf8(ObjectLabel(j))|] == Utf8(ObjectLabel(j))
  {
    ObjectAtGeneric(Header, objs, XrefSection(ObjectOffsets(objs), XrefPosition(objs)), j);
  }

  lemma XrefKeywordLine()
    ensures "xref\n0 6\n" == "xref" + "\n0 6\n"
  {
  }

  lemma TrailerLines()
    ensures "trailer\n<< /Root 1 0 R /Size 6 >>\nstartxref\n" == "trailer\n<< /Root 1 0 R /Size 6 >>\n" + "startxref\n"
  {
  }

  /** The section as `WriteXref` assembles it. */
  lemma XrefSectionForm(entries: seq<nat>, pos: nat)
    ensures "xref\n0 6\n" + FreeEntry + XrefEntries(entries) + "trailer\n<< /Root 1 0 R /Size 6 >>\nstartxref\n"
      + NatStr(pos) + "\n%%EOF" == XrefSection(entries, pos)
  {
    XrefKeywordLine();
    TrailerLines();
  }

  lemma EndsWithConcat(a: string, b: string)
    ensures EndsWith(a + b, b)
  {
    assert (a + b)[|a + b| - |b|..] == b;
  }

  lemma XrefAtGeneric(hdr: string, objs: seq<string>, offsets: seq<nat>, pos: nat)
    ensures var text := hdr + Body(objs, |objs|) + XrefSection(offsets, pos);
      var o := |Utf8(hdr + Body(objs, |objs|))|;
      && o + |Utf8("xref")| <= |Utf8(text)|
      && Utf8(text)[o..o + |Utf8("xref")|] == Utf8("xref")
      && EndsWith(text, StartXref(pos))
  {
    var pre := hdr + Body(objs, |objs|);
    var mid := XrefTableText(offsets);
    var tail := StartXref(pos);
    assert pre + XrefSection(offsets, pos) == pre + "xref" + (mid + tail);
    BytesAt(pre + XrefSection(offsets, pos), pre, "xref", mid + tail);
    assert pre + XrefSection(offsets, pos) == (pre + "xref" + mid) + tail;
    EndsWithConcat(pre + "xref" + mid, tail);
  }

  /** `startxref` is followed by the byte position at which the `xref` keyword starts. */
  lemma StartXrefAtXref(objs: seq<string>)
    ensures XrefPosition(objs) + 4 <= |FileBytes(objs)|
    ensures FileBytes(objs)[XrefPosition(objs)..XrefPosition(objs) + 4] == Utf8("xref")
    ensures EndsWith(FileText(objs), StartXref(XrefPosition(objs)))
  {
    XrefAtGeneric(Header, objs, ObjectOffsets(objs), XrefPosition(objs));
    AsciiLength("xref");
  }

  /** An entry whose offset has at most 10 digits is 20 bytes, and its first 10 read back as the offset. */
  lemma XrefEntryShape(offset: nat)
    requires offset < Pow10(10)
    ensures |XrefEntry(offset)| == 20
    ensures forall k :: 0 <= k < 10 ==> IsDigit(XrefEntry(offset)[k])
    ensures DigitsValue(XrefEntry(offset)[..10]) == offset
    ensures XrefEntry(offset)[10..] == " 00000 n \n"
  {
    NatStrLength(offset, 10);
    ZeroPadValue(offset, 10);
    assert XrefEntry(offset)[..10] == PadStart(NatStr(offset), 10, '0');
  }

  lemma SliceLeft(a: string, b: string, lo: nat, hi: nat)
    requires lo <= hi <= |a|
    ensures (a + b)[lo..hi] == a[lo..hi]
  {
  }

  lemma SliceRight(a: string, b: string)
    ensures (a + b)[|a|..|a| + |b|] == b
  {
  }

  lemma XrefEntriesLast(offsets: seq<nat>)
    requires offsets != []
    ensures XrefEntries(offsets) == XrefEntries(offsets[..|offsets| - 1]) + XrefEntry(offsets[|offsets| - 1])
  {
  }

  lemma XrefEntryLength(offset: nat)
    requires offset < Pow10(10)
    ensures |XrefEntry(offset)| == 20
  {
    XrefEntryShape(offset);
  }

  /** The in-use entries are 20-byte blocks, the `j`-th one for the `j`-th offset. */
  lemma {:induction false} XrefEntriesBlocks(offsets: seq<nat>)
    requires forall j :: 0 <= j < |offsets| ==> offsets[j] < Pow10(10)
    ensures |XrefEntries(offsets)| == 20 * |offsets|
    ensures forall j :: 0 <= j < |offsets| ==> XrefEntries(offsets)[20 * j..20 * j + 20] == XrefEntry(offsets[j])
    decreases |offsets|
  {
    if offsets != [] {
      var n := |offsets| - 1;
      var init := offsets[..n];
      XrefEntriesBlocks(init);
      XrefEntryLength(offsets[n]);
      XrefEntriesLast(offsets);
      var a := XrefEntries(init);
      var b := XrefEntry(offsets[n]);
      forall j | 0 <= j < |offsets| ensures (a + b)[20 * j..20 * j + 20] == XrefEntry(offsets[j]) {
        if j < n {
          SliceLeft(a, b, 20 * j, 20 * j + 20);
          assert init[j] == offsets[j];
        } else {
          SliceRight(a, b);
        }
      }
    }
  }

  /**
   * The table: after the `0 6` header and the free entry of object 0 (generation
   * 65535), one 20-byte entry per object, the `j`-th holding the offset of object `j + 1`.
   */
  lemma XrefTable(objs: seq<string>)
    requires XrefPosition(objs) < Pow10(10)
    ensures |FreeEntry| == 20
    ensures |XrefEntries(ObjectOffsets(objs))| == 20 * |objs|
    ensures forall j :: 0 <= j < |objs| ==>
      XrefEntries(ObjectOffsets(objs))[20 * j..20 * j + 20] == XrefEntry(ObjectOffset(objs, j))
  {
    var offs := ObjectOffsets(objs);
    forall j | 0 <= j < |objs| ensures offs[j] < Pow10(10) {
      OffsetsGrow(objs, j, |objs|);
    }
    XrefEntriesBlocks(offs);
  }

  /** Later objects start later. */
  lemma OffsetsGrow(objs: seq<string>, j: nat, k: nat)
    requires j <= k <= |objs|
    ensures ObjectOffset(objs, j) <= ObjectOffset(objs, k)
  {
    BodySplit(objs, j, k);
    assert Header + Body(objs, k) == (Header + Body(objs, j)) + Between(objs, j, k);
    Utf8Concat(Header + Body(objs, j), Between(objs, j, k));
  }

  /** What follows the stream data inside object 4. */
  const EndStream: string := "\nendstream"
  const EndObject: string := "\nendobj\n"

  /** What precedes the stream data inside object 4. */
  function StreamLead(content: string): string {
    ObjectLabel(3) + "\n" + "<< /Length " + NatStr(|Utf8(content)|) + " >>\nstream\n"
  }

  lemma StreamSplit(content: string)
    ensures ObjectString(3, StreamObject(content)) == StreamLead(content) + content + "\nendstream" + "\nendobj\n"
  {
  }

  /** The text of a file, cut inside object 4 where its text is `lead + c + e + r`. */
  lemma StreamCut(hdr: string, objs: seq<string>, tail: string, lead: string, c: string, e: string, r: string)
    requires |objs| >= 4 && ObjectString(3, objs[3]) == lead + c + e + r
    ensures hdr + Body(objs, |objs|) + tail
      == (hdr + Body(objs, 3)) + lead + c + e + (r + Between(objs, 4, |objs|) + tail)
  {
    BodySplit(objs, 4, |objs|);
    RegroupStream(hdr, Body(objs, |objs|), Body(objs, 4), Body(objs, 3), ObjectString(3, objs[3]),
      lead, c, e, r, Between(objs, 4, |objs|), tail);
  }

  lemma RegroupStream(h: string, bn: string, b4: string, b3: string, os: string,
                      lead: string, c: string, e: string, r: string, bt: string, t: string)
    requires bn == b4 + bt && b4 == b3 + os && os == lead + c + e + r
    ensures h + bn + t == (h + b3) + lead + c + e + (r + bt + t)
  {
  }

  lemma StreamGeneric(objs: seq<string>, lead: string, c: string, e: string, r: string)
    requires |objs| >= 4 && ObjectString(3, objs[3]) == lead + c + e + r
    ensures var p := Header + Body(objs, 3) + lead;
      && |Utf8(p)| + |Utf8(c)| <= |FileBytes(objs)|
      && FileBytes(objs)[|Utf8(p)|..|Utf8(p)| + |Utf8(c)|] == Utf8(c)
      && |Utf8(p + c)| + |Utf8(e)| <= |FileBytes(objs)|
      && FileBytes(objs)[|Utf8(p + c)|..|Utf8(p + c)| + |Utf8(e)|] == Utf8(e)
  {
    var tail := XrefSection(ObjectOffsets(objs), XrefPosition(objs));
    StreamCut(Header, objs, tail, lead, c, e, r);
    Utf8Parts(Header + Body(objs, 3) + lead, c, e, r + Between(objs, 4, |objs|) + tail);
  }

  lemma PositionSums(h: string, lead: string, c: string)
    ensures |Utf8(h + lead)| == |Utf8(h)| + |Utf8(lead)|
    ensures |Utf8(h + lead + c)| == |Utf8(h + lead)| + |Utf8(c)|
  {
    Utf8Concat(h, lead);
    Utf8Concat(h + lead, c);
  }

  lemma StreamObjectSplit(objs: seq<string>, content: string)
    requires |objs| >= 4 && objs[3] == StreamObject(content)
    ensures ObjectString(3, objs[3]) == StreamLead(content) + content + EndStream + EndObject
  {
    StreamSplit(content);
  }

  lemma StreamDataAt(objs: seq<string>, content: string)
    requires |objs| >= 4 && ObjectString(3, objs[3]) == StreamLead(content) + content + EndStream + EndObject
    ensures var p := Header + Body(objs, 3) + StreamLead(content);
      && |Utf8(p)| + |Utf8(content)| <= |FileBytes(objs)|
      && FileBytes(objs)[|Utf8(p)|..|Utf8(p)| + |Utf8(content)|] == Utf8(content)
  {
    StreamGeneric(objs, StreamLead(content), content, EndStream, EndObject);
  }

  lemma StreamEndAt(objs: seq<string>, content: string)
    requires |objs| >= 4 && ObjectString(3, objs[3]) == StreamLead(content) + content + EndStream + EndObject
    ensures var p := Header + Body(objs, 3) + StreamLead(content) + content;
      && |Utf8(p)| + |Utf8(EndStream)| <= |FileBytes(objs)|
      && FileBytes(objs)[|Utf8(p)|..|Utf8(p)| + |Utf8(EndStream)|] == Utf8(EndStream)
  {
    StreamGeneric(objs, StreamLead(content), content, EndStream, EndObject);
  }

  /**
   * A reader that takes `/Length` bytes after the `stream` line of object 4 gets
   * exactly the content stream; the number written after `/Length` reads back as
   * that byte count.
   */
  lemma StreamLength(objs: seq<string>, content: string)
    requires |objs| >= 4 && objs[3] == StreamObject(content)
    ensures DigitsValue(NatStr(|Utf8(content)|)) == |Utf8(content)|
    ensures var p := Header + Body(objs, 3) + StreamLead(content);
      && |Utf8(p)| + |Utf8(content)| <= |FileBytes(objs)|
      && FileBytes(objs)[|Utf8(p)|..|Utf8(p)| + |Utf8(content)|] == Utf8(content)
  {
    NatStrRoundTrip(|Utf8(content)|);
    StreamObjectSplit(objs, content);
    StreamDataAt(objs, content);
  }

  /** Right after those `/Length` bytes comes `endstream`. */
  lemma StreamEnd(objs: seq<string>, content: string)
    requires |objs| >= 4 && objs[3] == StreamObject(content)
    ensures var p := Header + Body(objs, 3) + StreamLead(content) + content;
      && |Utf8(p)| + |Utf8(EndStream)| <= |FileBytes(objs)|
      && FileBytes(objs)[|Utf8(p)|..|Utf8(p)| + |Utf8(EndStream)|] == Utf8(EndStream)
  {
    StreamObjectSplit(objs, content);
    StreamEndAt(objs, content);
  }

  /** Where the stream data starts: the offset of object 4 plus the bytes before the data. */
  lemma StreamDataOffset(objs: seq<string>, content: string)
    requires |objs| >= 4
    ensures |Utf8(Header + Body(objs, 3) + StreamLead(content))| == ObjectOffset(objs, 3) + |Utf8(StreamLead(content))|
    ensures |Utf8(Header + Body(objs, 3) + StreamLead(content) + content)|
         == ObjectOffset(objs, 3) + |Utf8(StreamLead(content))| + |Utf8(content)|
  {
    PositionSums(Header + Body(objs, 3), StreamLead(content), content);
  }
}
