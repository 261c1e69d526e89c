/** The line scanner that finds the required and preferred skill lines of a job text. */
module SkillSections {
  import opened Prelude
  import opened Texts

  /** Character classes, patterns and the skill extractor, as the scanner calls them. */
  datatype Ops = Ops(
    isSpace: char -> bool,
    lower: string -> string,
    splitLines: string -> seq<string>,
    saysPreferred: string -> bool,
    saysRequired: string -> bool,
    isRequirement: string -> bool,
    extract: string -> set<string>)

  const REQUIREMENT_SECTIONS: seq<string> := ["requirements", "qualifications", "basic qualifications", "must haves"]

  const PREFERRED_SECTIONS: seq<string> := ["preferred", "nice to have", "bonus", "plus", "good to have"]

  const SKIP_SECTIONS: seq<string> := [
    "about", "about the role", "about us", "summary", "responsibilities", "responsibility", "what you'll do",
    "what you will do", "benefits", "what we offer", "why us", "company description", "day to day", "what you ll get"]

  const OTHER_HEADERS: seq<string> := [
    "about the role", "about us", "what you'll do", "responsibility", "responsibilities", "key responsibilities",
    "job summary", "job description", "the role", "responsibilities and duties", "the opportunity"]

  const RESPONSIBILITY_STARTS: seq<string> := ["responsibility", "responsibilities", "what you "]

  /** A line without surrounding space, then without surrounding colons. */
  function Clean(ops: Ops, line: string): string {
    Strip(Strip(line, ops.isSpace), c => c == ':')
  }

  /** A heading of at most four words that contains a known section name. */
  predicate IsSectionHeader(ops: Ops, lowered: string) {
    var heading := Strip(Strip(lowered, c => c == ':'), ops.isSpace);
    && CountWords(heading, ops.isSpace, false) <= 4
    && ContainsAny(heading, REQUIREMENT_SECTIONS + PREFERRED_SECTIONS + OTHER_HEADERS)
  }

  /** A line that opens the responsibilities without being a short heading. */
  predicate StartsResponsibilities(lowered: string) {
    exists t :: t in RESPONSIBILITY_STARTS && StartsWith(lowered, t)
  }

  predicate IsSkipped(section: string) {
    ContainsAny(section, SKIP_SECTIONS)
  }

  predicate IsPreferredSection(section: string) {
    ContainsAny(section, PREFERRED_SECTIONS)
  }

  predicate IsRequirementSection(section: string) {
    ContainsAny(section, REQUIREMENT_SECTIONS)
  }

  /** What one line is, whatever surrounds it. */
  datatype Line = Blank | Header(section: string) | Content(text: string)

  function KindOf(ops: Ops, line: string): Line {
    var stripped := Clean(ops, line);
    if stripped == "" then Blank
    else
      var lowered := ops.lower(stripped);
      var isBreak := IsSectionHeader(ops, lowered);
      if |stripped| < 60 && isBreak then Header(lowered)
      else if !isBreak && StartsResponsibilities(lowered) then Header("responsibility")
      else Content(stripped)
  }

  datatype Bucket = Required | Preferred | Neither

  /** Where a content line belongs, given the section it stands in. */
  function BucketOf(ops: Ops, section: Option<string>, text: string): Bucket {
    if section.None? || IsSkipped(section.value) then Neither
    else if IsPreferredSection(section.value) then Preferred
    else if IsRequirementSection(section.value) then
      if ops.saysPreferred(text) then Preferred
      else if ops.isRequirement(text) || ops.saysRequired(text) then Required
      else Neither
    else Neither
  }

  // ---------------------------------------------------------------- exact tables

  /** A section of wishes. */
  predicate NamesWishes(t: string) {
    Contains(t, "preferred") || Contains(t, "nice to have") || Contains(t, "bonus") || Contains(t, "plus")
    || Contains(t, "good to have")
  }

  /** A section of requirements. */
  predicate NamesRequirements(t: string) {
    Contains(t, "requirements") || Contains(t, "qualifications") || Contains(t, "must haves")
  }

  /** A section about the company, the work or the offer. */
  predicate NamesOther(t: string) {
    Contains(t, "about") || Contains(t, "summary") || Contains(t, "responsibilities") || Contains(t, "responsibility")
    || Contains(t, "what you'll do") || Contains(t, "what you will do") || Contains(t, "benefits")
    || Contains(t, "what we offer") || Contains(t, "why us") || Contains(t, "company description")
    || Contains(t, "day to day") || Contains(t, "what you ll get")
  }

  lemma WishesExactly(t: string)
    ensures IsPreferredSection(t) <==> NamesWishes(t)
  {
    hide Contains;
  }

  lemma RequirementsExactly(t: string)
    ensures IsRequirementSection(t) <==> NamesRequirements(t)
  {
    Longer(t, "basic qualifications", "qualifications", 6);
    hide Contains;
  }

  lemma OthersExactly(t: string)
    ensures IsSkipped(t) <==> NamesOther(t)
  {
    Longer(t, "about the role", "about", 0);
    Longer(t, "about us", "about", 0);
    FirstSkipped(t);
    LastSkipped(t);
    AnyOfParts(t, FIRST_SKIPPED, LAST_SKIPPED, []);
    assert SKIP_SECTIONS == FIRST_SKIPPED + LAST_SKIPPED + [];
    hide Contains, ContainsAny;
  }

  const FIRST_SKIPPED: seq<string> := [
    "about", "about the role", "about us", "summary", "responsibilities", "responsibility", "what you'll do"]

  const LAST_SKIPPED: seq<string> := [
    "what you will do", "benefits", "what we offer", "why us", "company description", "day to day", "what you ll get"]

  lemma FirstSkipped(t: string)
    ensures ContainsAny(t, FIRST_SKIPPED) <==>
            || Contains(t, "about") || Contains(t, "about the role") || Contains(t, "about us") || Contains(t, "summary")
            || Contains(t, "responsibilities") || Contains(t, "responsibility") || Contains(t, "what you'll do")
  {
    hide Contains;
  }

  lemma LastSkipped(t: string)
    ensures ContainsAny(t, LAST_SKIPPED) <==>
            || Contains(t, "what you will do") || Contains(t, "benefits") || Contains(t, "what we offer")
            || Contains(t, "why us") || Contains(t, "company description") || Contains(t, "day to day")
            || Contains(t, "what you ll get")
  {
    hide Contains;
  }

  /** A heading, in lower case: at most four words that name requirements, wishes or one of the other parts of a posting. */
  lemma HeaderExactly(ops: Ops, lowered: string)
    ensures var heading := Strip(Strip(lowered, c => c == ':'), ops.isSpace);
            IsSectionHeader(ops, lowered) <==>
            && CountWords(heading, ops.isSpace, false) <= 4
            && (|| NamesRequirements(heading) || NamesWishes(heading)
                || Contains(heading, "about the role") || Contains(heading, "about us") || Contains(heading, "what you'll do")
                || Contains(heading, "responsibility") || Contains(heading, "responsibilities")
                || Contains(heading, "job summary") || Contains(heading, "job description") || Contains(heading, "the role")
                || Contains(heading, "the opportunity"))
  {
    var heading := Strip(Strip(lowered, c => c == ':'), ops.isSpace);
    WishesExactly(heading);
    RequirementsExactly(heading);
    Longer(heading, "key responsibilities", "responsibilities", 4);
    Longer(heading, "responsibilities and duties", "responsibilities", 0);
    AnyOfParts(heading, REQUIREMENT_SECTIONS, PREFERRED_SECTIONS, OTHER_HEADERS);
    OtherHeadersExactly(heading);
    hide ContainsAny, Contains, Strip, CountWords, NamesRequirements, NamesWishes;
  }

  lemma OtherHeadersExactly(t: string)
    ensures ContainsAny(t, OTHER_HEADERS) <==>
            || Contains(t, "about the role") || Contains(t, "about us") || Contains(t, "what you'll do")
            || Contains(t, "responsibility") || Contains(t, "responsibilities") || Contains(t, "key responsibilities")
            || Contains(t, "job summary") || Contains(t, "job description") || Contains(t, "the role")
            || Contains(t, "responsibilities and duties") || Contains(t, "the opportunity")
  {
    hide Contains;
  }

  /**
   * What a line is: nothing left after stripping spaces and colons is blank; a
   * heading shorter than 60 characters opens its section; a line that is no
   * heading but starts like the responsibilities opens those; any other is
   * content.
   */
  lemma KindExactly(ops: Ops, line: string)
    ensures var text := Strip(Strip(line, ops.isSpace), c => c == ':');
            var t := ops.lower(text);
            var starts := "responsibility" <= t || "responsibilities" <= t || "what you " <= t;
            && (KindOf(ops, line).Blank? <==> text == "")
            && (KindOf(ops, line) == Content(text) <==>
                  text != "" && if IsSectionHeader(ops, t) then |text| >= 60 else !starts)
            && (KindOf(ops, line).Header? && IsSectionHeader(ops, t) ==> KindOf(ops, line).section == t)
            && (KindOf(ops, line).Header? && !IsSectionHeader(ops, t) ==> KindOf(ops, line).section == "responsibility")
  {
    hide IsSectionHeader, Strip;
    var t := ops.lower(Clean(ops, line));
    assert StartsResponsibilities(t) <==> "responsibility" <= t || "responsibilities" <= t || "what you " <= t by {
      assert RESPONSIBILITY_STARTS == ["responsibility", "responsibilities", "what you "];
      assert RESPONSIBILITY_STARTS[0] in RESPONSIBILITY_STARTS && RESPONSIBILITY_STARTS[1] in RESPONSIBILITY_STARTS
             && RESPONSIBILITY_STARTS[2] in RESPONSIBILITY_STARTS;
    }
  }

  /**
   * Where a line belongs: to the wishes under a section of wishes, and under one
   * of requirements when it says so itself; to the requirements under a section
   * of requirements when it states one; nowhere outside these or under a section
   * about something else.
   */
  lemma BucketExactly(ops: Ops, section: Option<string>, text: string)
    ensures BucketOf(ops, section, text) == Preferred <==>
            && section.Some? && !NamesOther(section.value)
            && (NamesWishes(section.value) || (NamesRequirements(section.value) && ops.saysPreferred(text)))
    ensures BucketOf(ops, section, text) == Required <==>
            && section.Some? && !NamesOther(section.value)
            && !NamesWishes(section.value) && NamesRequirements(section.value)
            && !ops.saysPreferred(text) && (ops.isRequirement(text) || ops.saysRequired(text))
  {
    if section.Some? {
      WishesExactly(section.value);
      RequirementsExactly(section.value);
      OthersExactly(section.value);
    }
    hide IsSkipped, IsPreferredSection, IsRequirementSection, NamesOther, NamesWishes, NamesRequirements;
  }

  // ------------------------------------------------------------ declarative reading

  /** The header line that line i stands under: the nearest one before it. */
  ghost predicate Governs(ops: Ops, lines: seq<string>, h: nat, i: nat) {
    && h < i <= |lines|
    && KindOf(ops, lines[h]).Header?
    && forall j :: h < j < i ==> !KindOf(ops, lines[j]).Header?
  }

  /** Line i is a content line that belongs into a bucket by its governing header. */
  ghost predicate Belongs(ops: Ops, lines: seq<string>, i: nat, b: Bucket) {
    && i < |lines|
    && KindOf(ops, lines[i]).Content?
    && exists h: nat :: Governs(ops, lines, h, i)
                   && BucketOf(ops, Some(KindOf(ops, lines[h]).section), KindOf(ops, lines[i]).text) == b
  }

  /**
   * The section lines of a bucket among the first n lines: in order, exactly
   * those that belong into it, without surrounding spaces and colons.
   */
  ghost function SectionLines(ops: Ops, lines: seq<string>, n: nat, b: Bucket): seq<string>
    requires n <= |lines|
  {
    if n == 0 then []
    else SectionLines(ops, lines, n - 1, b) + if Belongs(ops, lines, n - 1, b) then [Clean(ops, lines[n - 1])] else []
  }

  lemma AtMostOneGoverns(ops: Ops, lines: seq<string>, h: nat, h': nat, i: nat)
    requires Governs(ops, lines, h, i) && Governs(ops, lines, h', i)
    ensures h == h'
  {
  }

  /** A line belongs to one bucket only, so no line lands in both lists. */
  lemma OneBucketOnly(ops: Ops, lines: seq<string>, i: nat, b: Bucket, b': Bucket)
    ensures Belongs(ops, lines, i, b) && Belongs(ops, lines, i, b') ==> b == b'
  {
    hide KindOf;
    if Belongs(ops, lines, i, b) && Belongs(ops, lines, i, b') {
      var text := KindOf(ops, lines[i]).text;
      var h: nat :| Governs(ops, lines, h, i) && BucketOf(ops, Some(KindOf(ops, lines[h]).section), text) == b;
      var h': nat :| Governs(ops, lines, h', i) && BucketOf(ops, Some(KindOf(ops, lines[h']).section), text) == b';
      AtMostOneGoverns(ops, lines, h, h', i);
    }
  }

  /** A line before the first header, or under a skipped section, lands in neither list. */
  lemma OutsideSectionsNowhere(ops: Ops, lines: seq<string>, i: nat, b: Bucket)
    requires b != Neither
    requires forall h: nat :: Governs(ops, lines, h, i) ==> IsSkipped(KindOf(ops, lines[h]).section)
    ensures !Belongs(ops, lines, i, b)
  {
  }

  // ------------------------------------------------------------------- the scanner

  /** The scanner's memory before line i: the section of the governing header, if there is one. */
  ghost predicate Remembers(ops: Ops, lines: seq<string>, i: nat, section: Option<string>)
    requires i <= |lines|
  {
    match section
    case None => forall j :: 0 <= j < i ==> !KindOf(ops, lines[j]).Header?
    case Some(s) => exists h: nat :: Governs(ops, lines, h, i) && KindOf(ops, lines[h]).section == s
  }

  /** What the scanner remembers decides where a content line belongs. */
  lemma MemoryDecides(ops: Ops, lines: seq<string>, i: nat, section: Option<string>, b: Bucket)
    requires i < |lines| && Remembers(ops, lines, i, section)
    requires b != Neither && KindOf(ops, lines[i]).Content?
    ensures Belongs(ops, lines, i, b) <==> BucketOf(ops, section, KindOf(ops, lines[i]).text) == b
  {
    hide KindOf, IsSkipped, IsPreferredSection, IsRequirementSection;
    if section.Some? {
      var h: nat :| Governs(ops, lines, h, i) && KindOf(ops, lines[h]).section == section.value;
      forall h': nat | Governs(ops, lines, h', i) ensures h' == h {
        AtMostOneGoverns(ops, lines, h, h', i);
      }
    }
  }

  /** A line that is no header leaves the memory right, and a header becomes it. */
  lemma MemoryAfter(ops: Ops, lines: seq<string>, i: nat, section: Option<string>)
    requires i < |lines| && Remembers(ops, lines, i, section)
    ensures var kind := KindOf(ops, lines[i]);
            Remembers(ops, lines, i + 1, if kind.Header? then Some(kind.section) else section)
  {
    hide KindOf;
    if KindOf(ops, lines[i]).Header? {
      assert Governs(ops, lines, i, i + 1);
    } else if section.Some? {
      var h: nat :| Governs(ops, lines, h, i) && KindOf(ops, lines[h]).section == section.value;
      assert Governs(ops, lines, h, i + 1);
    }
  }

  /** Everything the scanner knows after the first i lines. */
  ghost predicate Scanned(ops: Ops, lines: seq<string>, i: nat, section: Option<string>, must: seq<string>, prefer: seq<string>)
    requires i <= |lines|
  {
    && Remembers(ops, lines, i, section)
    && must == SectionLines(ops, lines, i, Required)
    && prefer == SectionLines(ops, lines, i, Preferred)
  }

  lemma ScannedNext(ops: Ops, lines: seq<string>, i: nat, section: Option<string>, must: seq<string>, prefer: seq<string>)
    requires i < |lines| && Scanned(ops, lines, i, section, must, prefer)
    ensures match KindOf(ops, lines[i])
            case Blank => Scanned(ops, lines, i + 1, section, must, prefer)
            case Header(s) => Scanned(ops, lines, i + 1, Some(s), must, prefer)
            case Content(text) =>
              match BucketOf(ops, section, text)
              case Required => Scanned(ops, lines, i + 1, section, must + [text], prefer)
              case Preferred => Scanned(ops, lines, i + 1, section, must, prefer + [text])
              case Neither => Scanned(ops, lines, i + 1, section, must, prefer)
  {
    MemoryAfter(ops, lines, i, section);
    ListAfter(ops, lines, i, section, Required);
    ListAfter(ops, lines, i, section, Preferred);
    hide KindOf, BucketOf, Remembers, SectionLines;
  }

  /** A line adds itself to the list of its bucket, if it has one. */
  lemma ListAfter(ops: Ops, lines: seq<string>, i: nat, section: Option<string>, b: Bucket)
    requires i < |lines| && Remembers(ops, lines, i, section) && b != Neither
    ensures var kind := KindOf(ops, lines[i]);
            SectionLines(ops, lines, i + 1, b) ==
            SectionLines(ops, lines, i, b) + if kind.Content? && BucketOf(ops, section, kind.text) == b then [kind.text] else []
  {
    ContentIsClean(ops, lines[i]);
    if KindOf(ops, lines[i]).Content? {
      MemoryDecides(ops, lines, i, section, b);
    } else {
      assert !Belongs(ops, lines, i, b);
    }
    hide KindOf, BucketOf, Remembers, Clean, Belongs;
  }

  lemma ContentIsClean(ops: Ops, line: string)
    ensures KindOf(ops, line).Content? ==> KindOf(ops, line).text == Clean(ops, line)
  {
    hide Clean, IsSectionHeader, StartsResponsibilities;
  }

  /**
   * Scan the lines once. The two lists hold, in order, exactly the lines whose
   * nearest preceding header and own wording put them there.
   */
  method Scan(ops: Ops, lines: seq<string>) returns (must: seq<string>, prefer: seq<string>)
    ensures must == SectionLines(ops, lines, |lines|, Required)
    ensures prefer == SectionLines(ops, lines, |lines|, Preferred)
  {
    var section: Option<string> := None;
    must, prefer := [], [];
    for i := 0 to |lines|
      invariant Scanned(ops, lines, i, section, must, prefer)
    {
      hide Scanned, Clean, IsSectionHeader, StartsResponsibilities, IsSkipped, IsPreferredSection, IsRequirementSection;
      ScannedNext(ops, lines, i, section, must, prefer);
      var stripped := Clean(ops, lines[i]);
      if stripped == "" {
        continue;
      }
      var lowered := ops.lower(stripped);
      var isBreak := IsSectionHeader(ops, lowered);
      if |stripped| < 60 && isBreak {
        section := Some(lowered);
        continue;
      }
      if !isBreak && StartsResponsibilities(lowered) {
        section := Some("responsibility");
        continue;
      }
      if section.None? || IsSkipped(section.value) {
        continue;
      }
      if IsPreferredSection(section.value) {
        prefer := prefer + [stripped];
      } else if IsRequirementSection(section.value) {
        if ops.saysPreferred(stripped) {
          prefer := prefer + [stripped];
        } else if ops.isRequirement(stripped) || ops.saysRequired(stripped) {
          must := must + [stripped];
        }
      }
    }
  }

  /** Every skill named in some line. */
  function SkillsOf(ops: Ops, lines: seq<string>): set<string> {
    set line, skill | line in lines && skill in ops.extract(line) :: skill
  }

  method ExtractFromLines(ops: Ops, lines: seq<string>) returns (skills: set<string>)
    ensures skills == SkillsOf(ops, lines)
  {
    skills := {};
    for i := 0 to |lines|
      invariant skills == SkillsOf(ops, lines[..i])
    {
      assert lines[..i + 1] == lines[..i] + [lines[i]];
      skills := skills + ops.extract(lines[i]);
    }
    assert lines[..|lines|] == lines;
  }

  /**
   * The required and preferred skills of a text; an empty text leaves those the
   * job view already has. Without any section line the whole text counts, as
   * required when it states a requirement anywhere.
   */
  method ParseSkills(ops: Ops, text: string, required0: set<string>, preferred0: set<string>)
    returns (required: set<string>, preferred: set<string>)
    ensures text == "" ==> required == required0 && preferred == preferred0
    ensures text != "" ==>
              var lines := ops.splitLines(text);
              var must, prefer := SectionLines(ops, lines, |lines|, Required), SectionLines(ops, lines, |lines|, Preferred);
              if must == [] && prefer == [] then
                && required + preferred == ops.extract(text) && required !! preferred
                && required == (if ops.saysRequired(text) then ops.extract(text) else {})
              else
                required == SkillsOf(ops, must) && preferred == SkillsOf(ops, prefer)
  {
    if text == "" {
      return required0, preferred0;
    }
    var must, prefer := Scan(ops, ops.splitLines(text));
    if must == [] && prefer == [] {
      var found := ops.extract(text);
      required := set s | s in found && ops.saysRequired(text);
      preferred := found - required;
      return;
    }
    required := ExtractFromLines(ops, must);
    preferred := ExtractFromLines(ops, prefer);
  }
}
