/**
 * The two section extractors that the documentation drift checks use to
 * cut one command's part out of the CLI reference and out of the recorded
 * `--help` transcript.
 */
module DocsDrift {
  import opened Text

  /** Where a command's section in the CLI reference ends: a horizontal rule or a level-two heading. */
  const SectionSeparators: seq<string> := ["\n---", "\n## "]

  /** The closing code fence of a `--help` transcript block. */
  const CodeFence := "\n```"

  function CommandHeading(name: string): string {
    "### " + name
  }

  function HelpCommandLine(name: string): string {
    "$ $TESTDIR/../fm " + name + " --help"
  }

  /** The text after the first occurrence of `marker` in `doc`. */
  function RestAfter(doc: string, marker: string): (rest: string)
    requires Contains(doc, marker)
    ensures |rest| <= |doc| - |marker|
  {
    IndexOfFinds(doc, marker);
    doc[IndexOf(doc, marker) + |marker|..]
  }

  /** One of the first `n` section separators starts at index `k` of `text`. */
  predicate SeparatorAmong(text: string, k: int, n: nat)
    requires n <= |SectionSeparators|
  {
    exists j | 0 <= j < n :: OccursAt(text, SectionSeparators[j], k)
  }

  lemma SeparatorAmongNext(text: string, n: nat)
    requires n < |SectionSeparators|
    ensures forall k :: SeparatorAmong(text, k, n + 1) <==> SeparatorAmong(text, k, n) || OccursAt(text, SectionSeparators[n], k)
  {
  }

  /** Some section separator starts at index `k` of `text`. */
  predicate SeparatorAt(text: string, k: int) {
    SeparatorAmong(text, k, |SectionSeparators|)
  }

  /**
   * `end` is where the section at the head of `rest` stops: at the first
   * separator, or at the end of `rest` when there is none.
   */
  predicate EndsSection(rest: string, end: int) {
    && 0 <= end <= |rest|
    && (forall k :: 0 <= k < end ==> !SeparatorAt(rest, k))
    && (end == |rest| || SeparatorAt(rest, end))
  }

  /** At most one index ends a section. */
  lemma EndsSectionUnique(rest: string, e1: int, e2: int)
    requires EndsSection(rest, e1) && EndsSection(rest, e2)
    ensures e1 == e2
  {
  }

  /** A section never contains a separator. */
  lemma SectionHasNoSeparator(rest: string, end: int)
    requires EndsSection(rest, end)
    ensures forall j :: 0 <= j < |SectionSeparators| ==> !Contains(rest[..end], SectionSeparators[j])
  {
    forall j | 0 <= j < |SectionSeparators|
      ensures !Contains(rest[..end], SectionSeparators[j])
    {
      forall k | 0 <= k < end
        ensures !OccursAt(rest, SectionSeparators[j], k)
      {
        assert !SeparatorAt(rest, k);
      }
      PrefixBeforeOccurrence(rest, end, SectionSeparators[j]);
    }
  }

  /**
   * `extractCommandSection`: the text after the first `### <name>` heading
   * up to the first separator after it, or `""` when the heading is absent.
   */
  method ExtractCommandSection(doc: string, name: string) returns (section: string)
    ensures !Contains(doc, CommandHeading(name)) ==> section == ""
    ensures Contains(doc, CommandHeading(name)) ==>
              var rest := RestAfter(doc, CommandHeading(name));
              section <= rest && EndsSection(rest, |section|)
  {
    var heading := CommandHeading(name);
    var start := IndexOf(doc, heading);
    IndexOfFinds(doc, heading);
    if start == -1 {
      return "";
    }
    var rest := doc[start + |heading|..];
    assert rest == RestAfter(doc, heading);
    var end := |rest|;
    for i := 0 to |SectionSeparators|
      invariant 0 <= end <= |rest|
      invariant forall k :: 0 <= k < end ==> !SeparatorAmong(rest, k, i)
      invariant end == |rest| || SeparatorAmong(rest, end, i)
    {
      var sep := SectionSeparators[i];
      var idx := IndexOf(rest, sep);
      IndexOfFinds(rest, sep);
      SeparatorAmongNext(rest, i);
      if idx != -1 && idx < end {
        end := idx;
      }
      ghost var next := i + 1;
      forall k | 0 <= k < end
        ensures !SeparatorAmong(rest, k, next)
      {
        assert !OccursAt(rest, sep, k);
      }
    }
    return rest[..end];
  }

  /**
   * `extractHelpCommandSection`: the text after the first
   * `$ $TESTDIR/../fm <name> --help` line up to the first closing code
   * fence, all of the rest when there is none, or `""` when the command
   * line is absent.
   */
  function ExtractHelpCommandSection(doc: string, name: string): (section: string)
    ensures !Contains(doc, HelpCommandLine(name)) ==> section == ""
    ensures Contains(doc, HelpCommandLine(name)) ==>
              var rest := RestAfter(doc, HelpCommandLine(name));
              && section <= rest
              && !Contains(section, CodeFence)
              && (|section| == |rest| || OccursAt(rest, CodeFence, |section|))
  {
    var command := HelpCommandLine(name);
    var start := IndexOf(doc, command);
    IndexOfFinds(doc, command);
    if start == -1 then ""
    else
      var rest := RestAfter(doc, command);
      var end := IndexOf(rest, CodeFence);
      IndexOfFinds(rest, CodeFence);
      if end == -1 then rest
      else
        PrefixBeforeOccurrence(rest, end, CodeFence);
        rest[..end]
  }
}
