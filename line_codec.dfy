/** The text of a word-processing document as seen by the application: on
    upload the paragraph texts are joined with "\n" (extract_text_from_docx),
    and on download the text is split on "\n" and each piece, empty pieces
    included, becomes one paragraph (create_word_doc). */
module LineCodec {

  predicate NoNewline(s: string) {
    forall i :: 0 <= i < |s| ==> s[i] != '\n'
  }

  /** "\n".join(paras) */
  function Join(paras: seq<string>): string {
    if |paras| == 0 then ""
    else if |paras| == 1 then paras[0]
    else paras[0] + "\n" + Join(paras[1..])
  }

  /** Position of the first "\n" in s, or |s| when there is none. */
  function LineEnd(s: string): (i: nat)
    ensures i <= |s|
    ensures forall k :: 0 <= k < i ==> s[k] != '\n'
    ensures i < |s| ==> s[i] == '\n'
  {
    if s == [] || s[0] == '\n' then 0 else 1 + LineEnd(s[1..])
  }

  /** text.split("\n"): the pieces between consecutive newlines, in order. */
  function Split(s: string): (lines: seq<string>)
    ensures |lines| >= 1
    ensures forall k :: 0 <= k < |lines| ==> NoNewline(lines[k])
    decreases |s|
  {
    var i := LineEnd(s);
    if i == |s| then [s] else [s[..i]] + Split(s[i + 1..])
  }

  /** The number of "\n" characters in s. */
  function NewlineCount(s: string): nat {
    multiset(s)['\n']
  }

  /** Joining the pieces of a split gives the text back. */
  lemma {:induction false} JoinSplit(s: string)
    ensures Join(Split(s)) == s
    decreases |s|
  {
    var i := LineEnd(s);
    if i < |s| {
      JoinSplit(s[i + 1..]);
      assert s == s[..i] + "\n" + s[i + 1..];
    }
  }

  /** A split has one piece more than the text has newlines. */
  lemma {:induction false} SplitLength(s: string)
    ensures |Split(s)| == NewlineCount(s) + 1
    decreases |s|
  {
    var i := LineEnd(s);
    if i == |s| {
      assert '\n' !in multiset(s);
    } else {
      SplitLength(s[i + 1..]);
      assert s == s[..i] + [s[i]] + s[i + 1..];
      assert multiset(s) == multiset(s[..i]) + multiset([s[i]]) + multiset(s[i + 1..]);
      assert '\n' !in multiset(s[..i]);
    }
  }

  /** Splitting a join of newline-free pieces gives those pieces back, so the
      split is the only way to cut a text into newline-free lines. */
  lemma {:induction false} SplitJoin(lines: seq<string>)
    requires |lines| >= 1
    requires forall k :: 0 <= k < |lines| ==> NoNewline(lines[k])
    ensures Split(Join(lines)) == lines
    decreases |lines|
  {
    var s := Join(lines);
    if |lines| == 1 {
      LineEndOfLine(lines[0], "");
      assert lines[0] + "" == lines[0];
    } else {
      var first, rest := lines[0], Join(lines[1..]);
      assert s == first + ("\n" + rest);
      LineEndOfLine(first, "\n" + rest);
      var i := |first|;
      assert LineEnd(s) == i && i < |s|;
      assert s[..i] == first;
      assert s[i + 1..] == rest;
      assert Split(s) == [first] + Split(rest);
      SplitJoin(lines[1..]);
      assert lines == [first] + lines[1..];
    }
  }

  lemma {:induction false} LineEndOfLine(line: string, rest: string)
    requires NoNewline(line)
    requires rest == [] || rest[0] == '\n'
    ensures LineEnd(line + rest) == |line|
    decreases |line|
  {
    if line == [] {
      assert line + rest == rest;
    } else {
      assert (line + rest)[0] == line[0];
      assert (line + rest)[1..] == line[1..] + rest;
      LineEndOfLine(line[1..], rest);
    }
  }

  /** A paragraph-oriented document under construction. */
  class Document {
    var paragraphs: seq<string>

    /** docx.Document(): a fresh, empty document. */
    constructor ()
      ensures paragraphs == []
    {
      paragraphs := [];
    }

    /** doc.add_paragraph(text): appends one paragraph at the end. */
    method AddParagraph(text: string)
      modifies this
      ensures paragraphs == old(paragraphs) + [text]
    {
      paragraphs := paragraphs + [text];
    }
  }

  /** create_word_doc without the serialisation: one paragraph per "\n"-separated
      line of text, in order, empty lines included; joining the paragraphs back
      with "\n" gives the text. */
  method CreateWordDoc(text: string) returns (doc: Document)
    ensures fresh(doc)
    ensures doc.paragraphs == Split(text)
    ensures |doc.paragraphs| == NewlineCount(text) + 1
    ensures Join(doc.paragraphs) == text
  {
    doc := new Document();
    var lines := Split(text);
    for i := 0 to |lines|
      invariant doc.paragraphs == lines[..i]
    {
      doc.AddParagraph(lines[i]);
    }
    SplitLength(text);
    JoinSplit(text);
  }
}
