/** compile_document: the final document is a title line, a blank line, and
    then each section's content followed by a blank line, in the order given. */
module DocumentCompiler {

  /** The title line and the blank line after it. */
  function Header(title: string): string {
    "# " + title + "\n\n"
  }

  /** The sections, each followed by "\n\n", in order (the text the loop of
      compile_document appends, one section per iteration). */
  function Body(sections: seq<string>): string {
    if sections == [] then ""
    else Body(sections[..|sections| - 1]) + sections[|sections| - 1] + "\n\n"
  }

  /** The document compile_document returns. */
  function Compiled(title: string, sections: seq<string>): string {
    Header(title) + Body(sections)
  }

  /** compile_document(title, sections): start from the header and append
      each section and a blank line. */
  method CompileDocument(title: string, sections: seq<string>) returns (document: string)
    ensures document == Compiled(title, sections)
  {
    document := "# " + title + "\n\n";
    for i := 0 to |sections|
      invariant document == Header(title) + Body(sections[..i])
    {
      assert sections[..i + 1][..i] == sections[..i];
      document := document + sections[i] + "\n\n";
    }
    assert sections[..|sections|] == sections;
  }

  /** Total length of the sections with their separators: the sum of |s| + 2. */
  function SectionsLength(sections: seq<string>): nat {
    if sections == [] then 0
    else SectionsLength(sections[..|sections| - 1]) + |sections[|sections| - 1]| + 2
  }

  /** Where section k starts in the compiled document: after the header and
      after every earlier section with its separator. */
  function Offset(title: string, sections: seq<string>, k: nat): nat
    requires k <= |sections|
  {
    |title| + 4 + SectionsLength(sections[..k])
  }

  /** The length of the compiled document is |title| + 4 + the sum of |s| + 2. */
  lemma {:induction false} CompiledLength(title: string, sections: seq<string>)
    ensures |Compiled(title, sections)| == |title| + 4 + SectionsLength(sections)
    decreases |sections|
  {
    if sections != [] {
      CompiledLength(title, sections[..|sections| - 1]);
    }
  }

  /** With no sections the document is the header alone. */
  lemma CompiledNoSections(title: string)
    ensures Compiled(title, []) == "# " + title + "\n\n"
  {
  }

  /** Every section appears verbatim at its offset, followed by a blank line:
      compilation neither drops, reorders nor alters a section. */
  lemma {:induction false} SectionAtOffset(title: string, sections: seq<string>, k: nat)
    requires k < |sections|
    ensures Offset(title, sections, k) + |sections[k]| + 2 <= |Compiled(title, sections)|
    ensures Compiled(title, sections)[Offset(title, sections, k)..Offset(title, sections, k) + |sections[k]|] == sections[k]
    ensures Compiled(title, sections)[Offset(title, sections, k) + |sections[k]|..Offset(title, sections, k) + |sections[k]| + 2] == "\n\n"
    decreases |sections|
  {
    var n := |sections|;
    var front := sections[..n - 1];
    var doc := Compiled(title, sections);
    var o := Offset(title, sections, k);
    CompiledLength(title, front);
    assert doc == Compiled(title, front) + sections[n - 1] + "\n\n";
    if k == n - 1 {
      assert o == |Compiled(title, front)|;
    } else {
      assert front[..k] == sections[..k];
      assert Offset(title, front, k) == o;
      SectionAtOffset(title, front, k);
      assert front[k] == sections[k];
      CompiledLength(title, sections);
    }
  }

  /** Compiling the sections one after another: compiling s + [x] is
      compiling s and then appending x and a blank line. */
  lemma CompiledAppend(title: string, sections: seq<string>, x: string)
    ensures Compiled(title, sections + [x]) == Compiled(title, sections) + x + "\n\n"
  {
    assert (sections + [x])[..|sections|] == sections;
  }

  /** compile_document("T", ["x", "y"]) is "# T\n\nx\n\ny\n\n". */
  lemma CompiledExample()
    ensures Compiled("T", ["x", "y"]) == "# T\n\nx\n\ny\n\n"
  {
    CompiledAppend("T", [], "x");
    CompiledAppend("T", ["x"], "y");
    assert [] + ["x"] == ["x"];
    assert ["x"] + ["y"] == ["x", "y"];
  }
}
