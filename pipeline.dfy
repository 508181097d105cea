/** main(): the document-generation run. The strategist writes an outline,
    which is saved and parsed back from the saved file; a run with no
    sections stops quietly. Otherwise each section in turn is drafted by the
    author, reviewed by the reviewer and enhanced by the editor; a failed
    enhancement falls back to the draft, any other failure aborts the run.
    Last, the final contents are compiled into one document and saved.

    The four agents are oracles: the reply each would give, success with a
    text or failure, is an input of the run, chosen per section position. */
module Pipeline {
  import opened Files
  import OutlineParser
  import DocumentCompiler

  /** The file the outline is saved to and read back from. */
  const OutlineFile := "outline.md"

  /** The configuration values main() reads. */
  datatype Config = Config(
    title: string,
    description: string,
    outputFilename: string,
    openaiMaxTokens: int,     // the token limit for the strategist, author and reviewer
    anthropicMaxTokens: int)  // the token limit for the editor

  /** What one agent call gives back: a text, or a failure (an exception). */
  datatype Reply = Ok(text: string) | Fail

  /** The replies of the agents: the strategist's outline, and the author's
      draft, the reviewer's feedback and the editor's enhanced text for the
      section at each position of the section list. */
  datatype Agents = Agents(
    strategist: Reply,
    author: nat -> Reply,
    reviewer: nat -> Reply,
    editor: nat -> Reply)

  /** One agent call, with the arguments main() passes it. */
  datatype Call =
    | GenerateOutline(title: string, description: string, maxTokens: int)
    | GenerateContent(section: string, maxTokens: int)
    | ReviewContent(content: string, section: string, maxTokens: int)
    | EnhanceContent(content: string, feedback: string, maxTokens: int)

  /** How a run ends: stopped for want of sections, aborted by a failure that
      was not caught, or done with the document it saved. */
  datatype Outcome = Halted | Aborted | Done(document: string)

  /** The state of the section loop: the final contents so far, the agent
      calls made for the sections so far, and whether a failure aborted it. */
  datatype Progress = Progress(finalContent: seq<string>, calls: seq<Call>, failed: bool)

  /** A whole run: how it ended, the files afterwards, and every agent call made. */
  datatype Run = Run(outcome: Outcome, disk: Disk, calls: seq<Call>)

  /** Drafting, reviewing and enhancing the section at position k. */
  function SectionStep(cfg: Config, ag: Agents, k: nat, section: string): Progress {
    var draftCall := GenerateContent(section, cfg.openaiMaxTokens);
    match ag.author(k)
    case Fail => Progress([], [draftCall], true)
    case Ok(draft) =>
      var reviewCall := ReviewContent(draft, section, cfg.openaiMaxTokens);
      match ag.reviewer(k)
      case Fail => Progress([], [draftCall, reviewCall], true)
      case Ok(feedback) =>
        var enhanceCall := EnhanceContent(draft, feedback, cfg.anthropicMaxTokens);
        var final := match ag.editor(k) case Ok(enhanced) => enhanced case Fail => draft;
        Progress([final], [draftCall, reviewCall, enhanceCall], false)
  }

  /** The section loop over `sections`, one section after the other; after a
      failure nothing more is done. */
  function Process(cfg: Config, ag: Agents, sections: seq<string>): Progress {
    if sections == [] then Progress([], [], false)
    else
      var n := |sections| - 1;
      var p := Process(cfg, ag, sections[..n]);
      if p.failed then p
      else
        var q := SectionStep(cfg, ag, n, sections[n]);
        Progress(p.finalContent + q.finalContent, p.calls + q.calls, q.failed)
  }

  /** The run main() performs, as a function of the configuration, the
      agents' replies and the files before the run. */
  function RunSpec(cfg: Config, ag: Agents, disk: Disk): Run {
    var outlineCall := GenerateOutline(cfg.title, cfg.description, cfg.openaiMaxTokens);
    match ag.strategist
    case Fail => Run(Aborted, disk, [outlineCall])
    case Ok(outline) =>
      var saved := SaveFile(disk, OutlineFile, outline);
      var sections := OutlineParser.ParseOutline(saved, OutlineFile);
      if sections == [] then Run(Halted, saved, [outlineCall])
      else
        var p := Process(cfg, ag, sections);
        if p.failed then Run(Aborted, saved, [outlineCall] + p.calls)
        else
          var document := DocumentCompiler.Compiled(cfg.title, p.finalContent);
          Run(Done(document), SaveFile(saved, cfg.outputFilename, document), [outlineCall] + p.calls)
  }

  /** Once the loop has failed on a prefix of the sections, the remaining
      sections change nothing: no call, no content. */
  lemma {:induction false} FailureIsFinal(cfg: Config, ag: Agents, sections: seq<string>, j: nat)
    requires j <= |sections| && Process(cfg, ag, sections[..j]).failed
    ensures Process(cfg, ag, sections) == Process(cfg, ag, sections[..j])
    decreases |sections|
  {
    if j < |sections| {
      var n := |sections| - 1;
      assert sections[..n][..j] == sections[..j];
      FailureIsFinal(cfg, ag, sections[..n], j);
    } else {
      assert sections[..j] == sections;
    }
  }

  /** One more turn of the loop: section i is processed after the first i. */
  lemma ProcessNext(cfg: Config, ag: Agents, sections: seq<string>, i: nat)
    requires i < |sections| && !Process(cfg, ag, sections[..i]).failed
    ensures var p := Process(cfg, ag, sections[..i]);
            var q := SectionStep(cfg, ag, i, sections[i]);
            Process(cfg, ag, sections[..i + 1])
              == Progress(p.finalContent + q.finalContent, p.calls + q.calls, q.failed)
  {
    assert sections[..i + 1][..i] == sections[..i];
  }

  /** A loop that got through every section has one final content per
      section, in section order: the editor's text, or the draft when the
      editor failed. */
  lemma {:induction false} CompletedContents(cfg: Config, ag: Agents, sections: seq<string>)
    requires !Process(cfg, ag, sections).failed
    ensures var p := Process(cfg, ag, sections);
      |p.finalContent| == |sections|
      && forall k :: 0 <= k < |sections| ==>
           ag.author(k).Ok? && ag.reviewer(k).Ok?
           && p.finalContent[k] == (if ag.editor(k).Ok? then ag.editor(k).text else ag.author(k).text)
    decreases |sections|
  {
    if sections != [] {
      var n := |sections| - 1;
      var front := sections[..n];
      assert !Process(cfg, ag, front).failed;
      CompletedContents(cfg, ag, front);
    }
  }

  /** A loop that got through every section made, for the section at
      position k and in this order, the author call on that section, the
      reviewer call on the author's draft, and the editor call on the same
      draft with the reviewer's feedback, and no other call. */
  lemma {:induction false} CompletedCalls(cfg: Config, ag: Agents, sections: seq<string>)
    requires !Process(cfg, ag, sections).failed
    ensures var p := Process(cfg, ag, sections);
      |p.calls| == 3 * |sections|
      && forall k :: 0 <= k < |sections| ==>
           ag.author(k).Ok? && ag.reviewer(k).Ok?
           && p.calls[3 * k..3 * k + 3] == [
                GenerateContent(sections[k], cfg.openaiMaxTokens),
                ReviewContent(ag.author(k).text, sections[k], cfg.openaiMaxTokens),
                EnhanceContent(ag.author(k).text, ag.reviewer(k).text, cfg.anthropicMaxTokens)]
    decreases |sections|
  {
    if sections != [] {
      var n := |sections| - 1;
      var front := sections[..n];
      CompletedLast(cfg, ag, sections);
      CompletedCalls(cfg, ag, front);
      var pc := Process(cfg, ag, front).calls;
      var last := [
        GenerateContent(sections[n], cfg.openaiMaxTokens),
        ReviewContent(ag.author(n).text, sections[n], cfg.openaiMaxTokens),
        EnhanceContent(ag.author(n).text, ag.reviewer(n).text, cfg.anthropicMaxTokens)];
      forall k | 0 <= k < |sections|
        ensures ag.author(k).Ok? && ag.reviewer(k).Ok?
        ensures (pc + last)[3 * k..3 * k + 3] == [
                  GenerateContent(sections[k], cfg.openaiMaxTokens),
                  ReviewContent(ag.author(k).text, sections[k], cfg.openaiMaxTokens),
                  EnhanceContent(ag.author(k).text, ag.reviewer(k).text, cfg.anthropicMaxTokens)]
      {
        if k < n {
          assert front[k] == sections[k];
          SliceOfFront(pc, last, 3 * k, 3 * k + 3);
        } else {
          SliceOfBack(pc, last);
        }
      }
    }
  }

  /** The last turn of a loop that got through every section: the author and
      the reviewer succeeded on the last section, and its three calls follow
      those of the earlier sections. */
  lemma CompletedLast(cfg: Config, ag: Agents, sections: seq<string>)
    requires sections != [] && !Process(cfg, ag, sections).failed
    ensures var n := |sections| - 1;
      !Process(cfg, ag, sections[..n]).failed
      && ag.author(n).Ok? && ag.reviewer(n).Ok?
      && Process(cfg, ag, sections).calls == Process(cfg, ag, sections[..n]).calls + [
           GenerateContent(sections[n], cfg.openaiMaxTokens),
           ReviewContent(ag.author(n).text, sections[n], cfg.openaiMaxTokens),
           EnhanceContent(ag.author(n).text, ag.reviewer(n).text, cfg.anthropicMaxTokens)]
  {
  }

  /** A slice inside the first part of a concatenation is a slice of that part. */
  lemma SliceOfFront<T>(a: seq<T>, b: seq<T>, i: nat, j: nat)
    requires i <= j <= |a|
    ensures (a + b)[i..j] == a[i..j]
  {
  }

  /** The second part of a concatenation is its slice after the first part. */
  lemma SliceOfBack<T>(a: seq<T>, b: seq<T>)
    ensures (a + b)[|a|..|a| + |b|] == b
  {
  }

  /** The loop fails exactly when, for some section, the author or the
      reviewer fails; an editor failure never makes it fail. */
  lemma {:induction false} ProcessFailsIff(cfg: Config, ag: Agents, sections: seq<string>)
    ensures Process(cfg, ag, sections).failed
        <==> exists k :: 0 <= k < |sections| && (ag.author(k).Fail? || ag.reviewer(k).Fail?)
    decreases |sections|
  {
    if sections != [] {
      var n := |sections| - 1;
      ProcessFailsIff(cfg, ag, sections[..n]);
    }
  }

  /** When section k is the first whose author or reviewer fails, the loop
      fails with the contents of the first k sections, and its last call is
      the one that failed: no section after k is drafted, reviewed or enhanced. */
  lemma FirstFailureAborts(cfg: Config, ag: Agents, sections: seq<string>, k: nat)
    requires k < |sections|
    requires forall j :: 0 <= j < k ==> ag.author(j).Ok? && ag.reviewer(j).Ok?
    requires ag.author(k).Fail? || ag.reviewer(k).Fail?
    ensures var p := Process(cfg, ag, sections);
      p.failed
      && p.finalContent == Process(cfg, ag, sections[..k]).finalContent
      && |p.finalContent| == k
      && |p.calls| == 3 * k + (if ag.author(k).Fail? then 1 else 2)
      && p.calls[..3 * k] == Process(cfg, ag, sections[..k]).calls
      && p.calls[3 * k] == GenerateContent(sections[k], cfg.openaiMaxTokens)
      && p.calls[|p.calls| - 1] == (if ag.author(k).Fail? then GenerateContent(sections[k], cfg.openaiMaxTokens)
                                    else ReviewContent(ag.author(k).text, sections[k], cfg.openaiMaxTokens))
  {
    ProcessFailsIff(cfg, ag, sections[..k]);
    CompletedContents(cfg, ag, sections[..k]);
    CompletedCalls(cfg, ag, sections[..k]);
    ProcessNext(cfg, ag, sections, k);
    FailureIsFinal(cfg, ag, sections, k + 1);
  }

  /** The sections are those of the outline as saved and read back: the
      strategist's text with its line ends translated, whatever the files
      held before; for an outline without '\r' that is the text itself. */
  lemma SectionsFromSavedOutline(disk: Disk, outline: string)
    ensures OutlineParser.ParseOutline(SaveFile(disk, OutlineFile, outline), OutlineFile)
         == OutlineParser.FindAll(UniversalNewlines(outline))
    ensures '\r' !in outline ==>
      OutlineParser.ParseOutline(SaveFile(disk, OutlineFile, outline), OutlineFile)
        == OutlineParser.FindAll(outline)
  {
    UniversalNewlinesUnchangedIff(outline);
  }

  /** A run halts exactly when the outline has no section; it then makes no
      call after the strategist's and saves nothing but the outline. */
  lemma RunHaltsIff(cfg: Config, ag: Agents, disk: Disk)
    ensures RunSpec(cfg, ag, disk).outcome == Halted
        <==> ag.strategist.Ok? && OutlineParser.FindAll(UniversalNewlines(ag.strategist.text)) == []
    ensures RunSpec(cfg, ag, disk).outcome == Halted ==>
      RunSpec(cfg, ag, disk)
        == Run(Halted, SaveFile(disk, OutlineFile, ag.strategist.text),
               [GenerateOutline(cfg.title, cfg.description, cfg.openaiMaxTokens)])
  {
  }

  /** A run aborts exactly when the strategist fails, or the outline has
      sections and the author or the reviewer fails on one of them. An
      aborted run never saves the document: the files are as before, except
      for the outline when the strategist gave one. */
  lemma RunAbortsIff(cfg: Config, ag: Agents, disk: Disk)
    ensures RunSpec(cfg, ag, disk).outcome == Aborted
        <==> ag.strategist.Fail?
             || (var sections := OutlineParser.FindAll(UniversalNewlines(ag.strategist.text));
                 sections != []
                 && exists k :: 0 <= k < |sections| && (ag.author(k).Fail? || ag.reviewer(k).Fail?))
    ensures RunSpec(cfg, ag, disk).outcome == Aborted ==>
      RunSpec(cfg, ag, disk).disk
        == (if ag.strategist.Fail? then disk else SaveFile(disk, OutlineFile, ag.strategist.text))
  {
    if ag.strategist.Ok? {
      var sections := OutlineParser.FindAll(UniversalNewlines(ag.strategist.text));
      SectionsFromSavedOutline(disk, ag.strategist.text);
      ProcessFailsIff(cfg, ag, sections);
    }
  }

  /** A completed run saved, under the configured name, the compilation under
      the configured title of one final content per section of the outline,
      in section order: the editor's text, or the draft when the editor failed. */
  lemma RunDone(cfg: Config, ag: Agents, disk: Disk)
    requires RunSpec(cfg, ag, disk).outcome.Done?
    ensures ag.strategist.Ok?
    ensures var sections := OutlineParser.FindAll(UniversalNewlines(ag.strategist.text));
      var finalContent := Process(cfg, ag, sections).finalContent;
      var document := RunSpec(cfg, ag, disk).outcome.document;
      sections != []
      && |finalContent| == |sections|
      && (forall k :: 0 <= k < |sections| ==>
            ag.author(k).Ok? && ag.reviewer(k).Ok?
            && finalContent[k] == (if ag.editor(k).Ok? then ag.editor(k).text else ag.author(k).text))
      && document == DocumentCompiler.Compiled(cfg.title, finalContent)
      && RunSpec(cfg, ag, disk).disk
           == SaveFile(SaveFile(disk, OutlineFile, ag.strategist.text), cfg.outputFilename, document)
      && RunSpec(cfg, ag, disk).disk[cfg.outputFilename] == document
  {
    var sections := OutlineParser.FindAll(UniversalNewlines(ag.strategist.text));
    SectionsFromSavedOutline(disk, ag.strategist.text);
    CompletedContents(cfg, ag, sections);
  }

  /** The loop of main() over the sections: draft, review and enhance each
      section in order, falling back to the draft when enhancing fails.
      `failed` is an exception from the author or the reviewer leaving the
      loop, and with it main(). */
  method ProcessSections(cfg: Config, ag: Agents, sections: seq<string>)
    returns (finalContent: seq<string>, sectionCalls: seq<Call>, failed: bool)
    ensures Progress(finalContent, sectionCalls, failed) == Process(cfg, ag, sections)
  {
    finalContent, sectionCalls := [], [];
    var i := 0;
    while i < |sections|
      invariant 0 <= i <= |sections|
      invariant Process(cfg, ag, sections[..i]) == Progress(finalContent, sectionCalls, false)
    {
      var section := sections[i];
      ProcessNext(cfg, ag, sections, i);

      sectionCalls := sectionCalls + [GenerateContent(section, cfg.openaiMaxTokens)];
      var draftReply := ag.author(i);
      if draftReply.Fail? {
        FailureIsFinal(cfg, ag, sections, i + 1);
        return finalContent, sectionCalls, true;
      }
      var initialContent := draftReply.text;

      sectionCalls := sectionCalls + [ReviewContent(initialContent, section, cfg.openaiMaxTokens)];
      var feedbackReply := ag.reviewer(i);
      if feedbackReply.Fail? {
        FailureIsFinal(cfg, ag, sections, i + 1);
        return finalContent, sectionCalls, true;
      }
      var feedback := feedbackReply.text;

      sectionCalls := sectionCalls + [EnhanceContent(initialContent, feedback, cfg.anthropicMaxTokens)];
      var enhancedContent: string;
      var enhanceReply := ag.editor(i);
      if enhanceReply.Ok? {
        enhancedContent := enhanceReply.text;
      } else {
        // the one failure that is caught: fall back to the unenhanced draft
        enhancedContent := initialContent;
      }
      finalContent := finalContent + [enhancedContent];
      i := i + 1;
    }
    assert sections[..|sections|] == sections;
    failed := false;
  }

  /** main(): generate, save and re-parse the outline, process the sections in
      order, then compile and save the document. */
  method GenerateDocument(cfg: Config, ag: Agents, disk: Disk)
    returns (outcome: Outcome, files: Disk, calls: seq<Call>)
    ensures Run(outcome, files, calls) == RunSpec(cfg, ag, disk)
  {
    files := disk;
    var outlineCall := GenerateOutline(cfg.title, cfg.description, cfg.openaiMaxTokens);
    var outlineReply := ag.strategist;
    if outlineReply.Fail? {
      return Aborted, files, [outlineCall];
    }
    var outline := outlineReply.text;
    files := SaveFile(files, OutlineFile, outline);

    var sections := OutlineParser.ParseOutline(files, OutlineFile);
    if sections == [] {
      return Halted, files, [outlineCall];
    }

    var finalContent, sectionCalls, failed := ProcessSections(cfg, ag, sections);
    if failed {
      return Aborted, files, [outlineCall] + sectionCalls;
    }

    var document := DocumentCompiler.CompileDocument(cfg.title, finalContent);
    files := SaveFile(files, cfg.outputFilename, document);
    return Done(document), files, [outlineCall] + sectionCalls;
  }
}
