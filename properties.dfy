/** What a run of `from_flextext` does, stated against a second description of
    the phrase loop: first plan every clip (stopping at the first phrase that
    raises), then apply the planned `get_slice` calls to the files. */
module ScissorsProperties {
  import opened Wrappers
  import opened ElementTree
  import PyInt
  import opened Scissors

  // ---------------------------------------------------------------------------
  // The clip plan and its application

  /** The clips planned for a text's phrases, and the exception that cut the
      plan short, if any. */
  datatype ClipPlan = ClipPlan(cuts: seq<Cut>, failure: Option<Exception>)

  /** The outcome of planning each phrase of a text from position `i` on, in order. */
  function PhrasePlansFrom(args: Args, phrases: seq<Element>, abbr: Option<string>, i: nat): (steps: seq<Result<Cut, Exception>>)
    requires i <= |phrases|
    ensures |steps| == |phrases| - i
    decreases |phrases| - i
  {
    if i == |phrases| then [] else [PlanPhrase(args, phrases[i], abbr, i)] + PhrasePlansFrom(args, phrases, abbr, i + 1)
  }

  function PhrasePlans(args: Args, phrases: seq<Element>, abbr: Option<string>): seq<Result<Cut, Exception>> {
    PhrasePlansFrom(args, phrases, abbr, 0)
  }

  /** Entry `k - i` of the plans from `i` on is the plan of the phrase at `k`. */
  lemma {:induction false} PhrasePlansFromAt(args: Args, phrases: seq<Element>, abbr: Option<string>, i: nat, k: nat)
    requires i <= k < |phrases|
    ensures PhrasePlansFrom(args, phrases, abbr, i)[k - i] == PlanPhrase(args, phrases[k], abbr, k)
    decreases k - i
  {
    if i < k {
      var rest := PhrasePlansFrom(args, phrases, abbr, i + 1);
      assert PhrasePlansFrom(args, phrases, abbr, i)[k - i] == rest[k - (i + 1)];
      PhrasePlansFromAt(args, phrases, abbr, i + 1, k);
    }
  }

  /** Entry `k` of a text's plans is the plan of its phrase at position `k`. */
  lemma PhrasePlansAt(args: Args, phrases: seq<Element>, abbr: Option<string>, k: nat)
    requires k < |phrases|
    ensures PhrasePlans(args, phrases, abbr)[k] == PlanPhrase(args, phrases[k], abbr, k)
  {
    PhrasePlansFromAt(args, phrases, abbr, 0, k);
  }

  /** The planned cuts up to the first plan that raises, and that exception. */
  function PlanOf(steps: seq<Result<Cut, Exception>>): (p: ClipPlan)
    ensures |p.cuts| <= |steps|
    ensures forall j :: 0 <= j < |p.cuts| ==> steps[j] == Success(p.cuts[j])
    ensures p.failure.None? ==> |p.cuts| == |steps|
    ensures p.failure.Some? ==> |p.cuts| < |steps| && steps[|p.cuts|] == Failure(p.failure.value)
  {
    if steps == [] then ClipPlan([], None)
    else
      match steps[0]
      case Failure(e) => ClipPlan([], Some(e))
      case Success(cut) =>
        var rest := PlanOf(steps[1..]);
        ClipPlan([cut] + rest.cuts, rest.failure)
  }

  /** The clip plan of a text's phrases. */
  function Plan(args: Args, phrases: seq<Element>, abbr: Option<string>): ClipPlan {
    PlanOf(PhrasePlans(args, phrases, abbr))
  }

  /** How the phrase loop ends under a plan. */
  function PlanOutcome(p: ClipPlan): Outcome {
    match p.failure
    case None => Exited
    case Some(e) => Raised(e)
  }

  /** The target paths of a list of cuts. */
  function Targets(cuts: seq<Cut>): set<string> {
    set c | c in cuts :: c.target
  }

  /** The files after one `get_slice` call per cut, in order. */
  function Apply(files: Files, audio: seq<int>, cuts: seq<Cut>): (r: Files)
    ensures r.Keys == files.Keys + Targets(cuts)
    ensures forall p :: p in files ==> r[p] == files[p]
    decreases |cuts|
  {
    if cuts == [] then files
    else
      assert Targets(cuts) == {cuts[0].target} + Targets(cuts[1..]) by {
        assert forall c :: c in cuts <==> c == cuts[0] || c in cuts[1..];
      }
      Apply(SliceInto(files, audio, cuts[0]), audio, cuts[1..])
  }

  /** The phrase loop from position `i` on, run step by step against the
      files, is the plan of the remaining phrases applied to the files. */
  lemma {:induction false} PhraseLoopIsPlanFrom(args: Args, phrases: seq<Element>, i: nat, abbr: Option<string>, audio: seq<int>, files: Files)
    requires i <= |phrases|
    ensures var p := PlanOf(PhrasePlansFrom(args, phrases, abbr, i));
      PhraseLoop(args, phrases, i, abbr, audio, files) == RunResult(PlanOutcome(p), Apply(files, audio, p.cuts))
    decreases |phrases| - i
  {
    if i < |phrases| {
      var steps := PhrasePlansFrom(args, phrases, abbr, i);
      var step := PlanPhrase(args, phrases[i], abbr, i);
      assert steps == [step] + PhrasePlansFrom(args, phrases, abbr, i + 1);
      if step.Success? {
        var rest := PlanOf(steps[1..]);
        assert PlanOf(steps) == ClipPlan([step.value] + rest.cuts, rest.failure);
        PhraseLoopIsPlanFrom(args, phrases, i + 1, abbr, audio, SliceInto(files, audio, step.value));
      }
    }
  }

  /** The whole phrase loop is the plan applied to the files. */
  lemma PhraseLoopIsPlan(args: Args, phrases: seq<Element>, abbr: Option<string>, audio: seq<int>, files: Files)
    ensures PhraseLoop(args, phrases, 0, abbr, audio, files) ==
      RunResult(PlanOutcome(Plan(args, phrases, abbr)), Apply(files, audio, Plan(args, phrases, abbr).cuts))
  {
    PhraseLoopIsPlanFrom(args, phrases, 0, abbr, audio, files);
  }

  /** A plan stops at the first phrase whose plan raises: it holds the cuts of
      the phrases before it and that exception, and nothing after it. */
  lemma PlanStopsAtFirstFailure(steps: seq<Result<Cut, Exception>>, k: nat)
    requires k < |steps| && steps[k].Failure?
    requires forall j :: 0 <= j < k ==> steps[j].Success?
    ensures |PlanOf(steps).cuts| == k
    ensures PlanOf(steps).failure == Some(steps[k].error)
  {
  }

  /** A plan whose every phrase plans a cut holds one cut per phrase. */
  lemma PlanComplete(steps: seq<Result<Cut, Exception>>)
    requires forall j :: 0 <= j < |steps| ==> steps[j].Success?
    ensures PlanOf(steps).failure.None?
    ensures |PlanOf(steps).cuts| == |steps|
    ensures forall k :: 0 <= k < |steps| ==> PlanOf(steps).cuts[k] == steps[k].value
  {
  }

  // ---------------------------------------------------------------------------
  // get_slice: skip if the file exists

  /** A second identical `get_slice` call changes nothing. */
  lemma SliceIntoIdempotent(files: Files, audio: seq<int>, cut: Cut)
    ensures SliceInto(SliceInto(files, audio, cut), audio, cut) == SliceInto(files, audio, cut)
  {
  }

  /** Cuts whose targets all exist already leave the files as they are. */
  lemma {:induction false} ApplyWhenAllExist(files: Files, audio: seq<int>, cuts: seq<Cut>)
    requires Targets(cuts) <= files.Keys
    ensures Apply(files, audio, cuts) == files
    decreases |cuts|
  {
    if cuts != [] {
      assert SliceInto(files, audio, cuts[0]) == files;
      ApplyWhenAllExist(files, audio, cuts[1..]);
    }
  }

  /** Applying the same cuts a second time changes nothing. */
  lemma ApplyIdempotent(files: Files, audio: seq<int>, cuts: seq<Cut>)
    ensures Apply(Apply(files, audio, cuts), audio, cuts) == Apply(files, audio, cuts)
  {
    ApplyWhenAllExist(Apply(files, audio, cuts), audio, cuts);
  }

  /** A new file holds the clip of the first cut that names it; later cuts with
      the same target are skipped. */
  lemma {:induction false} ApplyFirstWriter(files: Files, audio: seq<int>, cuts: seq<Cut>, k: nat)
    requires k < |cuts| && cuts[k].target !in files
    requires forall j :: 0 <= j < k ==> cuts[j].target != cuts[k].target
    ensures Apply(files, audio, cuts)[cuts[k].target] == Clip(Slice(audio, cuts[k].start, cuts[k].end), cuts[k].format)
    decreases k
  {
    var next := SliceInto(files, audio, cuts[0]);
    if k == 0 {
      ApplyKeeps(next, audio, cuts[1..], cuts[0].target);
    } else {
      var rest := cuts[1..];
      assert rest[k - 1] == cuts[k];
      forall j | 0 <= j < k - 1
        ensures rest[j].target != rest[k - 1].target
      {
        assert rest[j] == cuts[j + 1];
      }
      ApplyFirstWriter(next, audio, rest, k - 1);
    }
  }

  /** A file that exists before the cuts are applied is left as it is. */
  lemma ApplyKeeps(files: Files, audio: seq<int>, cuts: seq<Cut>, path: string)
    requires path in files
    ensures path in Apply(files, audio, cuts) && Apply(files, audio, cuts)[path] == files[path]
  {
  }

  /** Cuts with pairwise distinct targets, none of which exists yet, add one
      file each. */
  lemma {:induction false} ApplyCount(files: Files, audio: seq<int>, cuts: seq<Cut>)
    requires forall j, k :: 0 <= j < k < |cuts| ==> cuts[j].target != cuts[k].target
    requires forall k :: 0 <= k < |cuts| ==> cuts[k].target !in files
    ensures |Apply(files, audio, cuts)| == |files| + |cuts|
    decreases |cuts|
  {
    if cuts != [] {
      var next := SliceInto(files, audio, cuts[0]);
      assert next.Keys == files.Keys + {cuts[0].target};
      assert |next.Keys| == |files.Keys| + 1;
      forall k | 0 <= k < |cuts[1..]|
        ensures cuts[1..][k].target !in next
      {
        assert cuts[1..][k] == cuts[k + 1];
      }
      ApplyCount(next, audio, cuts[1..]);
    }
  }

  // ---------------------------------------------------------------------------
  // Identifiers

  /** A phrase without a `segnum` item gets `abbr-i` for its raw 0-based
      position `i` among all the text's phrases: the phrase at position 0 gets
      `abbr-0`, and the digits after the separator read back as `i`, not
      `i + 1`. */
  lemma FallbackIdIsRawIndex(args: Args, phrase: Element, abbr: string, i: nat)
    requires args.idFunc.None?
    requires NoneOfType(Items(phrase), "segnum")
    ensures PhraseId(args, phrase, Some(abbr), i).Success?
    ensures PhraseId(args, phrase, Some(abbr), i).value[..|abbr| + 1] == abbr + "-"
    ensures PyInt.ParseInt(PhraseId(args, phrase, Some(abbr), i).value[|abbr| + 1..]) == Some(i)
    ensures i == 0 ==> PhraseId(args, phrase, Some(abbr), i) == Success(abbr + "-0")
  {
    DefaultIdIsSegnumOrBackup(phrase, Some(abbr), "-", i);
    var id := PhraseId(args, phrase, Some(abbr), i).value;
    assert id == abbr + "-" + PyInt.Str(i);
    if i == 0 {
      assert PyInt.Str(0) == "0" by {
        assert PyInt.DigitChar(0) == '0';
      }
      assert abbr + "-" + "0" == abbr + "-0";
    }
    assert id[|abbr| + 1..] == PyInt.Str(i);
    PyInt.StrRoundTrip(i);
  }

  /** Different identifiers give different clip paths, unless exactly one of
      them is absolute: an absolute id replaces the output directory, so it
      can name the same path as a relative id under that directory
      (`AbsoluteIdCollides`). pathlib also collapses `.` components and
      doubled or trailing slashes, so in the program `./a` and `a` name the
      same clip; this lemma does not cover that. */
  lemma TargetInjective(outDir: string, id1: string, id2: string, exportFormat: string)
    requires Target(outDir, id1, exportFormat) == Target(outDir, id2, exportFormat)
    ensures id1 == id2 || IsAbsolute(id1) != IsAbsolute(id2)
  {
    var name1, name2 := id1 + "." + exportFormat, id2 + "." + exportFormat;
    assert IsAbsolute(name1) == IsAbsolute(id1) && IsAbsolute(name2) == IsAbsolute(id2) by {
      if |id1| > 0 { assert name1[0] == id1[0]; } else { assert name1[0] == '.'; }
      if |id2| > 0 { assert name2[0] == id2[0]; } else { assert name2[0] == '.'; }
    }
    if IsAbsolute(id1) == IsAbsolute(id2) {
      var path := Target(outDir, id1, exportFormat);
      var dirLength := if IsAbsolute(id1) || outDir == "" || outDir == "." then 0 else |outDir| + 1;
      assert |path| == dirLength + |name1| == dirLength + |name2|;
      assert name1 == path[|path| - |name1|..] == name2;
      assert id1 == name1[..|id1|];
      assert id2 == name2[..|id2|];
    }
  }

  /** An absolute id and a relative one can share a clip path: under the
      output directory `/x`, the ids `y` and `/x/y` both give `/x/y.wav`, so
      the second phrase's clip is skipped. */
  lemma AbsoluteIdCollides()
    ensures Target("/x", "y", "wav") == Target("/x", "/x/y", "wav") == "/x/y.wav"
  {
    assert IsAbsolute("/x/y.wav");
    assert !IsAbsolute("y.wav");
  }

  // ---------------------------------------------------------------------------
  // Text selection

  /** The title abbreviation of `text` is read without error and is not `req`. */
  ghost predicate TitleDiffers(text: Element, req: Option<string>) {
    GetTextAbbr(text).Success? && GetTextAbbr(text).value != req
  }

  /** With a requested abbreviation and no slugification, the loop settles on
      the first text whose title abbreviation equals the request exactly. */
  lemma {:induction false} RequestSelectsFirstMatch(texts: seq<Element>, i: nat, req: Option<string>, k: nat)
    requires Truthy(req) && i <= k < |texts|
    requires forall j :: i <= j < k ==> TitleDiffers(texts[j], req)
    requires GetTextAbbr(texts[k]) == Success(req)
    ensures SelectLoop(texts, i, req, None) == Success(Selected(texts[k], req))
    decreases k - i
  {
    if i < k {
      assert TitleDiffers(texts[i], req);
      RequestSelectsFirstMatch(texts, i + 1, req, k);
    }
  }

  /** ... raises the error of the first text whose title abbreviation cannot
      be read, when no earlier text matched ... */
  lemma {:induction false} RequestRaisesFirstError(texts: seq<Element>, i: nat, req: Option<string>, k: nat)
    requires Truthy(req) && i <= k < |texts|
    requires forall j :: i <= j < k ==> TitleDiffers(texts[j], req)
    requires GetTextAbbr(texts[k]).Failure?
    ensures SelectLoop(texts, i, req, None) == Failure(GetTextAbbr(texts[k]).error)
    decreases k - i
  {
    if i < k {
      assert TitleDiffers(texts[i], req);
      RequestRaisesFirstError(texts, i + 1, req, k);
    }
  }

  /** ... and runs out, keeping the request, when no text has it. */
  lemma {:induction false} RequestNotFound(texts: seq<Element>, i: nat, req: Option<string>)
    requires Truthy(req) && i <= |texts|
    requires forall j :: i <= j < |texts| ==> TitleDiffers(texts[j], req)
    ensures SelectLoop(texts, i, req, None) == Success(NotFound(req))
    decreases |texts| - i
  {
    if i < |texts| {
      assert TitleDiffers(texts[i], req);
      RequestNotFound(texts, i + 1, req);
    }
  }

  /** Without a requested abbreviation the first text is selected, and its own
      title abbreviation (slugified when asked) is the one every id uses. */
  lemma UnrequestedSelectsFirstText(texts: seq<Element>, req: Option<string>, slugify: Option<Slugifier>)
    requires !Truthy(req) && |texts| > 0
    ensures GetTextAbbr(texts[0]).Failure? ==> SelectLoop(texts, 0, req, slugify) == Failure(GetTextAbbr(texts[0]).error)
    ensures GetTextAbbr(texts[0]).Success? && slugify.None? ==>
      SelectLoop(texts, 0, req, slugify) == Success(Selected(texts[0], GetTextAbbr(texts[0]).value))
    ensures GetTextAbbr(texts[0]).Success? && slugify.Some? && slugify.value(GetTextAbbr(texts[0]).value).Success? ==>
      SelectLoop(texts, 0, req, slugify) == Success(Selected(texts[0], Some(slugify.value(GetTextAbbr(texts[0]).value).value)))
  {
  }

  /** At every position, slugification rewrites the current abbreviation
      after it has been compared with that text, and the slug is what the next
      text is compared with; the candidates' abbreviations are compared as
      they are. */
  lemma SlugifyAfterComparison(texts: seq<Element>, i: nat, abbr: Option<string>, f: Slugifier, title: Option<string>, slug: string)
    requires Truthy(abbr) && i < |texts|
    requires GetTextAbbr(texts[i]) == Success(title) && f(abbr) == Success(slug)
    ensures title == abbr ==> SelectLoop(texts, i, abbr, Some(f)) == Success(Selected(texts[i], Some(slug)))
    ensures title != abbr ==> SelectLoop(texts, i, abbr, Some(f)) == SelectLoop(texts, i + 1, Some(slug), Some(f))
  {
  }

  /** When `text_abbr` is falsy at position `i`, the text at `i` is selected,
      but with the title abbreviation of the FIRST text, slugified when
      slugification is on. */
  lemma FalsyAbbrSelectsCurrentText(texts: seq<Element>, i: nat, abbr: Option<string>, first: Option<string>, slugify: Option<Slugifier>)
    requires i < |texts| && !Truthy(abbr)
    requires GetTextAbbr(texts[0]) == Success(first)
    ensures slugify.None? ==> SelectLoop(texts, i, abbr, slugify) == Success(Selected(texts[i], first))
    ensures slugify.Some? && slugify.value(first).Success? ==>
      SelectLoop(texts, i, abbr, slugify) == Success(Selected(texts[i], Some(slugify.value(first).value)))
    ensures slugify.Some? && slugify.value(first).Failure? ==>
      SelectLoop(texts, i, abbr, slugify) == Failure(CallbackError(slugify.value(first).error))
  {
  }

  /** A request that misses the first text and slugifies to the empty string
      makes the second text selected, under the slug of the first text's title
      abbreviation. */
  lemma EmptySlugSelectsNextText(texts: seq<Element>, req: Option<string>, f: Slugifier, first: Option<string>, slug: string)
    requires Truthy(req) && |texts| >= 2
    requires GetTextAbbr(texts[0]) == Success(first) && first != req
    requires f(req) == Success("") && f(first) == Success(slug)
    ensures SelectLoop(texts, 0, req, Some(f)) == Success(Selected(texts[1], Some(slug)))
  {
    SlugifyAfterComparison(texts, 0, req, f, first, "");
    FalsyAbbrSelectsCurrentText(texts, 1, Some(""), first, Some(f));
  }

  // ---------------------------------------------------------------------------
  // Whole runs

  /** A missing annotation file raises before the tree is looked at, and
      nothing is written. */
  lemma MissingSourceRaisesFirst(args: Args, tree: Element, audio: seq<int>, files: Files)
    requires args.flextextFile !in files
    ensures Run(args, tree, audio, files) == RunResult(Raised(InvalidSourceFile), files)
  {
  }

  /** A missing audio file is reported only once a text has been selected;
      when no text is selected the run ends as it would with the audio there. */
  lemma MissingAudioOnlyAfterSelection(args: Args, tree: Element, audio: seq<int>, files: Files)
    requires args.flextextFile in files && args.audioFile !in files
    ensures Run(args, tree, audio, files).files == files
    ensures Run(args, tree, audio, files).outcome == Raised(InvalidAudioFile) <==>
      (var sel := SelectLoop(Texts(tree), 0, args.textAbbr, args.slugify); sel.Success? && sel.value.Selected?)
  {
  }

  /** A run whose text loop runs out of texts ends without an exception and
      writes nothing; that happens only when an abbreviation was requested or
      the document has no interlinear text. */
  lemma NoMatchWritesNothing(args: Args, tree: Element, audio: seq<int>, files: Files, abbr: Option<string>)
    requires args.flextextFile in files
    requires SelectLoop(Texts(tree), 0, args.textAbbr, args.slugify) == Success(NotFound(abbr))
    ensures Run(args, tree, audio, files) == RunResult(NoMatch(abbr), files)
    ensures Truthy(args.textAbbr) || |Texts(tree)| == 0
  {
  }

  /** Once a text is selected, the run writes exactly that text's planned
      clips, one `get_slice` per phrase until the first phrase that raises; no
      other text of the document is looked at again. */
  lemma RunWritesSelectedText(args: Args, tree: Element, audio: seq<int>, files: Files, text: Element, abbr: Option<string>)
    requires args.flextextFile in files && args.audioFile in files
    requires SelectLoop(Texts(tree), 0, args.textAbbr, args.slugify) == Success(Selected(text, abbr))
    ensures Run(args, tree, audio, files) ==
      RunResult(PlanOutcome(Plan(args, Phrases(text), abbr)), Apply(files, audio, Plan(args, Phrases(text), abbr).cuts))
  {
    PhraseLoopIsPlan(args, Phrases(text), abbr, audio, files);
  }

  /** Applying a plan cut short at position `k` ends with that exception and
      creates exactly the targets of the cuts before `k`. */
  lemma ApplyUntilFailure(files: Files, audio: seq<int>, steps: seq<Result<Cut, Exception>>, k: nat)
    requires k < |steps| && steps[k].Failure?
    requires forall j :: 0 <= j < k ==> steps[j].Success?
    ensures PlanOutcome(PlanOf(steps)) == Raised(steps[k].error)
    ensures forall j :: 0 <= j < k ==> steps[j].value.target in Apply(files, audio, PlanOf(steps).cuts)
    ensures forall q :: q in Apply(files, audio, PlanOf(steps).cuts) && q !in files ==>
      exists j :: 0 <= j < k && steps[j].value.target == q
  {
    var cuts := PlanOf(steps).cuts;
    PlanStopsAtFirstFailure(steps, k);
    forall j | 0 <= j < k
      ensures steps[j].value.target in Apply(files, audio, cuts)
    {
      assert cuts[j] in cuts;
    }
    forall q | q in Apply(files, audio, cuts) && q !in files
      ensures exists j :: 0 <= j < k && steps[j].value.target == q
    {
      var c :| c in cuts && c.target == q;
      var j :| 0 <= j < |cuts| && cuts[j] == c;
      assert steps[j] == Success(c);
    }
  }

  /** A phrase without `begin-time-offset` raises; the clips planned for the
      phrases before it stay written and no phrase after it is processed. */
  lemma RunStopsAtMissingBegin(args: Args, tree: Element, audio: seq<int>, files: Files, text: Element, abbr: Option<string>, k: nat)
    requires args.flextextFile in files && args.audioFile in files
    requires SelectLoop(Texts(tree), 0, args.textAbbr, args.slugify) == Success(Selected(text, abbr))
    requires k < |Phrases(text)|
    requires forall j :: 0 <= j < k ==> PhrasePlans(args, Phrases(text), abbr)[j].Success?
    requires PhraseId(args, Phrases(text)[k], abbr, k).Success?
    requires "begin-time-offset" !in Phrases(text)[k].attrib
    ensures Run(args, tree, audio, files).outcome ==
      Raised(MissingBeginOffset(PhraseId(args, Phrases(text)[k], abbr, k).value, abbr, args.flextextFile))
    ensures forall j :: 0 <= j < k ==> PhrasePlans(args, Phrases(text), abbr)[j].value.target in Run(args, tree, audio, files).files
    ensures forall q :: q in Run(args, tree, audio, files).files && q !in files ==>
      exists j :: 0 <= j < k && PhrasePlans(args, Phrases(text), abbr)[j].value.target == q
  {
    var phrases := Phrases(text);
    RunWritesSelectedText(args, tree, audio, files, text, abbr);
    PhrasePlansAt(args, phrases, abbr, k);
    PlanPhraseSpec(args, phrases[k], abbr, k);
    ApplyUntilFailure(files, audio, PhrasePlans(args, phrases, abbr), k);
  }

  /** Cuts with pairwise distinct targets, none of which exists yet, add one
      file per cut, each holding that cut's slice of the recording. */
  lemma ApplyDistinctCuts(files: Files, audio: seq<int>, cuts: seq<Cut>)
    requires forall j, k :: 0 <= j < k < |cuts| ==> cuts[j].target != cuts[k].target
    requires forall k :: 0 <= k < |cuts| ==> cuts[k].target !in files
    ensures |Apply(files, audio, cuts)| == |files| + |cuts|
    ensures forall k :: 0 <= k < |cuts| ==>
      cuts[k].target in Apply(files, audio, cuts) &&
      Apply(files, audio, cuts)[cuts[k].target] == Clip(Slice(audio, cuts[k].start, cuts[k].end), cuts[k].format)
  {
    ApplyCount(files, audio, cuts);
    forall k | 0 <= k < |cuts|
      ensures cuts[k].target in Apply(files, audio, cuts)
      ensures Apply(files, audio, cuts)[cuts[k].target] == Clip(Slice(audio, cuts[k].start, cuts[k].end), cuts[k].format)
    {
      assert cuts[k] in cuts;
      ApplyFirstWriter(files, audio, cuts, k);
    }
  }

  /** Applying a plan in which every phrase plans a cut, with pairwise
      distinct targets none of which exists yet, adds one file per phrase,
      each holding that phrase's slice of the recording. */
  lemma ApplyCompletePlan(files: Files, audio: seq<int>, steps: seq<Result<Cut, Exception>>)
    requires forall k :: 0 <= k < |steps| ==> steps[k].Success?
    requires forall j, k :: 0 <= j < k < |steps| ==> steps[j].value.target != steps[k].value.target
    requires forall k :: 0 <= k < |steps| ==> steps[k].value.target !in files
    ensures PlanOf(steps).failure.None?
    ensures |Apply(files, audio, PlanOf(steps).cuts)| == |files| + |steps|
    ensures forall k :: 0 <= k < |steps| ==>
      var cut := steps[k].value;
      cut.target in Apply(files, audio, PlanOf(steps).cuts) &&
      Apply(files, audio, PlanOf(steps).cuts)[cut.target] == Clip(Slice(audio, cut.start, cut.end), cut.format)
  {
    PlanComplete(steps);
    ApplyDistinctCuts(files, audio, PlanOf(steps).cuts);
  }

  /** When every phrase of the selected text plans a clip, the targets are
      pairwise distinct and none exists yet, the run exits normally with one
      new file per phrase, each holding that phrase's slice of the recording. */
  lemma RunOneClipPerPhrase(args: Args, tree: Element, audio: seq<int>, files: Files, text: Element, abbr: Option<string>)
    requires args.flextextFile in files && args.audioFile in files
    requires SelectLoop(Texts(tree), 0, args.textAbbr, args.slugify) == Success(Selected(text, abbr))
    requires forall k :: 0 <= k < |Phrases(text)| ==> PhrasePlans(args, Phrases(text), abbr)[k].Success?
    requires forall j, k :: 0 <= j < k < |Phrases(text)| ==>
      PhrasePlans(args, Phrases(text), abbr)[j].value.target != PhrasePlans(args, Phrases(text), abbr)[k].value.target
    requires forall k :: 0 <= k < |Phrases(text)| ==> PhrasePlans(args, Phrases(text), abbr)[k].value.target !in files
    ensures Run(args, tree, audio, files).outcome == Exited
    ensures |Run(args, tree, audio, files).files| == |files| + |Phrases(text)|
    ensures forall k :: 0 <= k < |Phrases(text)| ==>
      var cut := PhrasePlans(args, Phrases(text), abbr)[k].value;
      cut.target in Run(args, tree, audio, files).files &&
      Run(args, tree, audio, files).files[cut.target] == Clip(Slice(audio, cut.start, cut.end), cut.format)
  {
    RunWritesSelectedText(args, tree, audio, files, text, abbr);
    ApplyCompletePlan(files, audio, PhrasePlans(args, Phrases(text), abbr));
  }

  /** Running the pipeline a second time on the files the first run left
      behind ends the same way and changes nothing. */
  lemma RunIdempotent(args: Args, tree: Element, audio: seq<int>, files: Files)
    ensures Run(args, tree, audio, Run(args, tree, audio, files).files) == Run(args, tree, audio, files)
  {
    var after := Run(args, tree, audio, files).files;
    if args.flextextFile in files {
      match SelectLoop(Texts(tree), 0, args.textAbbr, args.slugify)
      case Success(Selected(text, abbr)) =>
        if args.audioFile in files {
          RunWritesSelectedText(args, tree, audio, files, text, abbr);
          RunWritesSelectedText(args, tree, audio, after, text, abbr);
          ApplyIdempotent(files, audio, Plan(args, Phrases(text), abbr).cuts);
        }
      case _ =>
    }
  }
}
