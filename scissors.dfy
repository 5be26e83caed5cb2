/** The phrase-extraction core of elan-scissors: find one interlinear text in
    a parsed FLEx export, derive an identifier and a time span for each of its
    phrases, and write one audio clip per phrase unless the clip's file
    already exists.

    The XML tree, the decoded recording and the contents of the filesystem are
    inputs; Python's exceptions and `sys.exit()` become an `Outcome`. */
module Scissors {
  import opened Wrappers
  import opened ElementTree
  import PyInt

  /** The exceptions the pipeline raises or lets propagate. */
  datatype Exception =
    | KeyError(key: string)            // an attribute looked up with `attrib[key]` is missing
    | TypeError                        // `+` applied to None and a string
    | InvalidSourceFile                // ValueError: the annotation file does not exist
    | InvalidAudioFile                 // ValueError: the audio file does not exist
    | MissingBeginOffset(phraseId: string, textAbbr: Option<string>, source: string)
    | InvalidLiteral(literal: string)  // ValueError from `int()`
    | CallbackError(message: string)   // raised inside a caller-supplied id function or slugify

  /** How a run ends: `sys.exit()` after the selected text, falling off the end
      of the text loop (an error is logged, nothing is raised), or an exception. */
  datatype Outcome = Exited | NoMatch(textAbbr: Option<string>) | Raised(exception: Exception)

  /** What a file holds: a clip this tool exported, or anything else. One
      element of `frames` stands for one millisecond of sound. */
  datatype FileData = Clip(frames: seq<int>, format: string) | Other

  /** The regular files that exist, by path. */
  type Files = map<string, FileData>

  /** `id_func(phrase, abbr, backup_no=i)` supplied by a caller; a failure
      carries the message of whatever it raises. */
  type IdFunc = (Element, Option<string>, int) -> Result<string, string>

  /** The `slugify` library function, applied to the current abbreviation; a
      failure carries the message of whatever it raises. */
  type Slugifier = Option<string> -> Result<string, string>

  /** The arguments of `from_flextext`. `idFunc == None` selects the default
      identifier builder; `slugify == None` stands for `slugify_abbr=False`. */
  datatype Args = Args(
    flextextFile: string,
    audioFile: string,
    outDir: string,
    textAbbr: Option<string>,
    idFunc: Option<IdFunc>,
    slugify: Option<Slugifier>,
    exportFormat: string)

  /** `from_flextext(flextext_file, audio_file)` with every keyword at its default. */
  function DefaultArgs(flextextFile: string, audioFile: string): Args {
    Args(flextextFile, audioFile, ".", None, None, None, "wav")
  }

  /** Python truthiness of a value that is None or a string. */
  predicate Truthy(s: Option<string>) {
    s.Some? && s.value != ""
  }

  /** `str(s)` (and an f-string hole) for None or a string. */
  function Show(s: Option<string>): string {
    match s
    case None => "None"
    case Some(v) => v
  }

  /** `e.attrib[key]`. */
  function Attr(e: Element, key: string): (r: Result<string, Exception>)
    ensures r.Success? <==> key in e.attrib
    ensures r.Success? ==> r.value == e.attrib[key]
    ensures r.Failure? ==> r.error == KeyError(key)
  {
    if key in e.attrib then Success(e.attrib[key]) else Failure(KeyError(key))
  }

  /** `int(literal)`. */
  function ToInt(literal: string): (r: Result<int, Exception>)
    ensures r.Failure? ==> r.error == InvalidLiteral(literal)
    ensures PyInt.IsDecimal(literal) ==> r.Success? && r.value >= 0
  {
    match PyInt.ParseInt(literal)
    case Some(n) => Success(n)
    case None => Failure(InvalidLiteral(literal))
  }

  /** `e.iter("item")`, `text.iter("phrase")` and `tree.iter("interlinear-text")`. */
  function Items(e: Element): seq<Element> { IterTag(e, "item") }
  function Phrases(text: Element): seq<Element> { IterTag(text, "phrase") }
  function Texts(root: Element): seq<Element> { IterTag(root, "interlinear-text") }

  // ---------------------------------------------------------------------------
  // First-match search over items, shared by get_text_abbr and the default id_func

  predicate TypeIs(item: Element, ty: string) {
    "type" in item.attrib && item.attrib["type"] == ty
  }

  predicate OtherType(item: Element, ty: string) {
    "type" in item.attrib && item.attrib["type"] != ty
  }

  /** `items[k]` is the first item of type `ty`, and every item before it has a type. */
  ghost predicate IsFirstOfType(items: seq<Element>, ty: string, k: int) {
    0 <= k < |items| && TypeIs(items[k], ty) && forall j :: 0 <= j < k ==> OtherType(items[j], ty)
  }

  /** Every item has a type, and none has type `ty`. */
  ghost predicate NoneOfType(items: seq<Element>, ty: string) {
    forall j :: 0 <= j < |items| ==> OtherType(items[j], ty)
  }

  /** `items[k]` has no type, and every item before it has a type other than `ty`. */
  ghost predicate FirstUntyped(items: seq<Element>, ty: string, k: int) {
    0 <= k < |items| && "type" !in items[k].attrib && forall j :: 0 <= j < k ==> OtherType(items[j], ty)
  }

  /** `for item in items: if item.attrib["type"] == ty: ...`: the position of the
      first item of type `ty`, None when the loop runs out, and the KeyError
      raised by the first item without a type attribute met on the way. */
  function FindType(items: seq<Element>, ty: string): (r: Result<Option<nat>, Exception>)
    ensures r.Success? && r.value.Some? ==> IsFirstOfType(items, ty, r.value.value)
    ensures r == Success(None) ==> NoneOfType(items, ty)
    ensures r.Failure? ==> r.error == KeyError("type") && exists k :: FirstUntyped(items, ty, k)
  {
    if items == [] then Success(None)
    else if "type" !in items[0].attrib then
      assert FirstUntyped(items, ty, 0);
      Failure(KeyError("type"))
    else if items[0].attrib["type"] == ty then Success(Some(0))
    else
      match FindType(items[1..], ty)
      case Failure(e) =>
        assert exists k :: FirstUntyped(items, ty, k) by {
          var k :| FirstUntyped(items[1..], ty, k);
          assert FirstUntyped(items, ty, k + 1);
        }
        Failure(e)
      case Success(None) => Success(None)
      case Success(Some(k)) => Success(Some(k + 1))
  }

  /** `get_text_abbr(text)`. */
  function GetTextAbbr(text: Element): (r: Result<Option<string>, Exception>)
    ensures r.Failure? ==> r.error == KeyError("type")
  {
    var items := Items(text);
    match FindType(items, "title-abbreviation")
    case Failure(e) => Failure(e)
    case Success(None) => Success(None)
    case Success(Some(k)) => Success(items[k].text)
  }

  /** `get_text_abbr` returns the text of the first `item` of type
      `title-abbreviation` under the text (None when that item has no text),
      None when there is no such item, and raises KeyError when an item met
      before it has no type. */
  lemma GetTextAbbrIsFirstMatch(text: Element)
    ensures forall k :: IsFirstOfType(Items(text), "title-abbreviation", k) ==> GetTextAbbr(text) == Success(Items(text)[k].text)
    ensures NoneOfType(Items(text), "title-abbreviation") ==> GetTextAbbr(text) == Success(None)
    ensures GetTextAbbr(text).Failure? ==>
      GetTextAbbr(text).error == KeyError("type") && exists k :: FirstUntyped(Items(text), "title-abbreviation", k)
    ensures forall k :: FirstUntyped(Items(text), "title-abbreviation", k) ==> GetTextAbbr(text) == Failure(KeyError("type"))
  {
  }

  /** The default `id_func`. */
  function DefaultId(phrase: Element, abbr: Option<string>, sep: string, backupNo: int): (r: Result<string, Exception>)
    ensures r.Failure? ==> r.error == KeyError("type") || r.error == TypeError
  {
    var items := Items(phrase);
    match FindType(items, "segnum")
    case Failure(e) => Failure(e)
    case Success(Some(k)) =>
      if abbr.None? || items[k].text.None? then Failure(TypeError)
      else Success(abbr.value + sep + items[k].text.value)
    case Success(None) => Success(Show(abbr) + sep + PyInt.Str(backupNo))
  }

  /** The default `id_func` joins the abbreviation, the separator and the text
      of the first `segnum` item under the phrase (a TypeError when either is
      None), and falls back to `f"{abbr}{sep}{backup_no}"` when the phrase has
      no `segnum` item. */
  lemma DefaultIdIsSegnumOrBackup(phrase: Element, abbr: Option<string>, sep: string, backupNo: int)
    ensures forall k :: IsFirstOfType(Items(phrase), "segnum", k) ==>
      DefaultId(phrase, abbr, sep, backupNo) ==
        if abbr.Some? && Items(phrase)[k].text.Some?
        then Success(abbr.value + sep + Items(phrase)[k].text.value)
        else Failure(TypeError)
    ensures NoneOfType(Items(phrase), "segnum") ==>
      DefaultId(phrase, abbr, sep, backupNo) == Success(Show(abbr) + sep + PyInt.Str(backupNo))
    ensures DefaultId(phrase, abbr, sep, backupNo).Failure? ==>
      DefaultId(phrase, abbr, sep, backupNo).error in {KeyError("type"), TypeError}
  {
  }

  /** The identifier `from_flextext` gives the phrase at 0-based position `i`:
      `id_func(phrase, text_abbr, backup_no=i)`. */
  function PhraseId(args: Args, phrase: Element, abbr: Option<string>, i: nat): (r: Result<string, Exception>)
    ensures args.idFunc.None? && r.Failure? ==> r.error == KeyError("type") || r.error == TypeError
    ensures args.idFunc.Some? ==>
      (r.Success? <==> args.idFunc.value(phrase, abbr, i).Success?) &&
      (r.Failure? ==> r.error == CallbackError(args.idFunc.value(phrase, abbr, i).error))
    ensures args.idFunc.Some? && r.Success? ==> r.value == args.idFunc.value(phrase, abbr, i).value
  {
    match args.idFunc
    case None => DefaultId(phrase, abbr, "-", i)
    case Some(f) =>
      match f(phrase, abbr, i)
      case Success(phraseId) => Success(phraseId)
      case Failure(message) => Failure(CallbackError(message))
  }

  /** Without a caller's `id_func`, a phrase's id is the default id with
      separator `-` and `backup_no` its position: the first segnum item's text
      after `abbr-` (a TypeError when either is None), or `f"{abbr}-{i}"` when
      the phrase has no segnum item. */
  lemma DefaultPhraseId(args: Args, phrase: Element, abbr: Option<string>, i: nat)
    requires args.idFunc.None?
    ensures PhraseId(args, phrase, abbr, i) == DefaultId(phrase, abbr, "-", i)
    ensures forall k :: IsFirstOfType(Items(phrase), "segnum", k) ==>
      PhraseId(args, phrase, abbr, i) ==
        if abbr.Some? && Items(phrase)[k].text.Some?
        then Success(abbr.value + "-" + Items(phrase)[k].text.value)
        else Failure(TypeError)
    ensures NoneOfType(Items(phrase), "segnum") ==>
      PhraseId(args, phrase, abbr, i) == Success(Show(abbr) + "-" + PyInt.Str(i))
  {
    DefaultIdIsSegnumOrBackup(phrase, abbr, "-", i);
  }

  // ---------------------------------------------------------------------------
  // Slicing and the skip-if-exists write

  /** A Python slice bound normalised against a sequence of length `n`. */
  function SliceBound(i: int, n: nat): (b: nat)
    ensures b <= n
    ensures 0 <= i <= n ==> b == i
  {
    if i < 0 then (if i + n < 0 then 0 else i + n) else if i > n then n else i
  }

  /** `audio[start:end]`. */
  function Slice(audio: seq<int>, start: int, end: int): (r: seq<int>)
    ensures 0 <= start <= end <= |audio| ==> r == audio[start..end]
    ensures var lo, hi := SliceBound(start, |audio|), SliceBound(end, |audio|);
      |r| == (if lo < hi then hi - lo else 0) && r == audio[lo..lo + |r|]
  {
    var lo, hi := SliceBound(start, |audio|), SliceBound(end, |audio|);
    if lo < hi then audio[lo..hi] else []
  }

  /** One planned call of `get_slice`. */
  datatype Cut = Cut(target: string, start: int, end: int, format: string)

  /** The files after `get_slice(audio, cut.target, cut.start, cut.end, cut.format)`:
      the clip is written only when no file exists at the target. */
  function SliceInto(files: Files, audio: seq<int>, cut: Cut): (r: Files)
    ensures r.Keys == files.Keys + {cut.target}
    ensures forall p :: p in files ==> r[p] == files[p]
    ensures cut.target !in files ==> r[cut.target] == Clip(Slice(audio, cut.start, cut.end), cut.format)
  {
    if cut.target in files then files
    else files[cut.target := Clip(Slice(audio, cut.start, cut.end), cut.format)]
  }

  /** A path that starts at the root of the file system. */
  predicate IsAbsolute(name: string) {
    |name| > 0 && name[0] == '/'
  }

  /** `Path(dir) / name`: an absolute `name` replaces the directory. */
  function JoinPath(dir: string, name: string): (path: string)
    ensures |name| <= |path| && path[|path| - |name|..] == name
    ensures IsAbsolute(name) ==> path == name
    ensures !IsAbsolute(name) && dir != "" && dir != "." ==> |dir| < |path| && path[..|dir| + 1] == dir + "/"
  {
    if IsAbsolute(name) || dir == "" || dir == "." then name else dir + "/" + name
  }

  /** `out_dir / f"{phrase_id}.{export_format}"`. */
  function Target(outDir: string, phraseId: string, exportFormat: string): (path: string)
    ensures var name := phraseId + "." + exportFormat;
      |name| <= |path| && path[|path| - |name|..] == name
  {
    JoinPath(outDir, phraseId + "." + exportFormat)
  }

  /** The files on the machine; `get_slice` changes them one clip at a time. */
  class FileSystem {
    var files: Files

    constructor (files: Files)
      ensures this.files == files
    {
      this.files := files;
    }

    /** `Path(path).is_file()`. */
    function IsFile(path: string): bool
      reads this
    {
      path in files
    }

    /** `segment.export(path, format=...)`: creates the file, or replaces it. */
    method Export(path: string, data: FileData)
      modifies this
      ensures files == old(files)[path := data]
    {
      files := files[path := data];
    }
  }

  /** `get_slice(audio, target_file, start, end, export_format)`. */
  method GetSlice(fs: FileSystem, audio: seq<int>, targetFile: string, start: int, end: int, exportFormat: string)
    modifies fs
    ensures fs.files == SliceInto(old(fs.files), audio, Cut(targetFile, start, end, exportFormat))
  {
    if !fs.IsFile(targetFile) {
      var segment := Slice(audio, start, end);
      fs.Export(targetFile, Clip(segment, exportFormat));
    }
  }

  // ---------------------------------------------------------------------------
  // The phrase loop

  /** The body of the phrase loop up to the `get_slice` call for the phrase at
      position `i`: its identifier, the begin-time-offset check, both offsets
      and the target path. */
  function PlanPhrase(args: Args, phrase: Element, abbr: Option<string>, i: nat): (r: Result<Cut, Exception>)
    ensures r.Success? ==> "begin-time-offset" in phrase.attrib && "end-time-offset" in phrase.attrib
    ensures r.Success? ==> r.value.format == args.exportFormat
  {
    var phraseId :- PhraseId(args, phrase, abbr, i);
    if "begin-time-offset" !in phrase.attrib then
      Failure(MissingBeginOffset(phraseId, abbr, args.flextextFile))
    else
      var start :- ToInt(phrase.attrib["begin-time-offset"]);
      var endLiteral :- Attr(phrase, "end-time-offset");
      var end :- ToInt(endLiteral);
      Success(Cut(Target(args.outDir, phraseId, args.exportFormat), start, end, args.exportFormat))
  }

  /** The id is computed first and its failure propagates; a phrase without
      `begin-time-offset` then raises with the id, the abbreviation and the
      annotation file; otherwise both offsets must be present and parse, and
      the clip goes to `<out_dir>/<id>.<export_format>`. */
  lemma PlanPhraseSpec(args: Args, phrase: Element, abbr: Option<string>, i: nat)
    ensures PhraseId(args, phrase, abbr, i).Failure? ==>
      PlanPhrase(args, phrase, abbr, i) == Failure(PhraseId(args, phrase, abbr, i).error)
    ensures PhraseId(args, phrase, abbr, i).Success? && "begin-time-offset" !in phrase.attrib ==>
      PlanPhrase(args, phrase, abbr, i) == Failure(MissingBeginOffset(PhraseId(args, phrase, abbr, i).value, abbr, args.flextextFile))
    ensures PlanPhrase(args, phrase, abbr, i).Success? <==>
      && PhraseId(args, phrase, abbr, i).Success?
      && "begin-time-offset" in phrase.attrib && PyInt.ParseInt(phrase.attrib["begin-time-offset"]).Some?
      && "end-time-offset" in phrase.attrib && PyInt.ParseInt(phrase.attrib["end-time-offset"]).Some?
    ensures PlanPhrase(args, phrase, abbr, i).Success? ==>
      var cut := PlanPhrase(args, phrase, abbr, i).value;
      && cut.target == Target(args.outDir, PhraseId(args, phrase, abbr, i).value, args.exportFormat)
      && cut.format == args.exportFormat
      && PyInt.ParseInt(phrase.attrib["begin-time-offset"]) == Some(cut.start)
      && PyInt.ParseInt(phrase.attrib["end-time-offset"]) == Some(cut.end)
  {
  }

  /** The outcome of a run and the files it leaves behind. */
  datatype RunResult = RunResult(outcome: Outcome, files: Files)

  /** The phrase loop from position `i` on, one `get_slice` per phrase; the
      first exception ends it, and `sys.exit()` follows the last phrase. */
  function PhraseLoop(args: Args, phrases: seq<Element>, i: nat, abbr: Option<string>, audio: seq<int>, files: Files): (r: RunResult)
    requires i <= |phrases|
    ensures r.outcome.Exited? || r.outcome.Raised?
    ensures files.Keys <= r.files.Keys
    ensures forall p :: p in files ==> r.files[p] == files[p]
    decreases |phrases| - i
  {
    if i == |phrases| then RunResult(Exited, files)
    else
      match PlanPhrase(args, phrases[i], abbr, i)
      case Failure(e) => RunResult(Raised(e), files)
      case Success(cut) => PhraseLoop(args, phrases, i + 1, abbr, audio, SliceInto(files, audio, cut))
  }

  // ---------------------------------------------------------------------------
  // Text selection

  /** Where one iteration of the text loop leaves `good` and `text_abbr`. */
  datatype Step = Step(good: bool, textAbbr: Option<string>)

  /** One iteration of the text loop, up to `if good`. */
  function SelectStep(texts: seq<Element>, i: nat, textAbbr: Option<string>, slugify: Option<Slugifier>): (r: Result<Step, Exception>)
    requires i < |texts|
    ensures r.Success? && !Truthy(textAbbr) ==> r.value.good
    ensures r.Success? && slugify.None? && Truthy(textAbbr) ==> r.value.textAbbr == textAbbr
    ensures r.Success? && slugify.Some? ==> r.value.textAbbr.Some?
    ensures r.Failure? ==> r.error == KeyError("type") || r.error.CallbackError?
  {
    var step :- if Truthy(textAbbr) then
        var titleAbbr :- GetTextAbbr(texts[i]);
        Success(Step(titleAbbr == textAbbr, textAbbr))
      else
        var first :- GetTextAbbr(texts[0]);
        Success(Step(true, first));
    match slugify
    case None => Success(step)
    case Some(f) =>
      match f(step.textAbbr)
      case Success(slug) => Success(Step(step.good, Some(slug)))
      case Failure(message) => Failure(CallbackError(message))
  }

  /** The text the loop settles on and the abbreviation its ids use, or the
      abbreviation left when the loop runs out of texts. */
  datatype Selection = Selected(text: Element, textAbbr: Option<string>) | NotFound(textAbbr: Option<string>)

  /** The text loop from position `i` on, with `text_abbr` as it stands there. */
  function SelectLoop(texts: seq<Element>, i: nat, textAbbr: Option<string>, slugify: Option<Slugifier>): (r: Result<Selection, Exception>)
    requires i <= |texts|
    ensures r.Success? && r.value.Selected? ==> r.value.text in texts[i..]
    ensures r.Success? && r.value.NotFound? ==> i == |texts| || Truthy(textAbbr)
    ensures r.Failure? ==> r.error == KeyError("type") || r.error.CallbackError?
    decreases |texts| - i
  {
    if i == |texts| then Success(NotFound(textAbbr))
    else
      var step :- SelectStep(texts, i, textAbbr, slugify);
      if step.good then Success(Selected(texts[i], step.textAbbr))
      else SelectLoop(texts, i + 1, step.textAbbr, slugify)
  }

  // ---------------------------------------------------------------------------
  // from_flextext

  /** `from_flextext(...)` on the parsed annotation `tree` and the decoded
      recording `audio`, starting from the files `files`. */
  function Run(args: Args, tree: Element, audio: seq<int>, files: Files): (r: RunResult)
    ensures files.Keys <= r.files.Keys
    ensures forall p :: p in files ==> r.files[p] == files[p]
  {
    if args.flextextFile !in files then RunResult(Raised(InvalidSourceFile), files)
    else
      match SelectLoop(Texts(tree), 0, args.textAbbr, args.slugify)
      case Failure(e) => RunResult(Raised(e), files)
      case Success(NotFound(abbr)) => RunResult(NoMatch(abbr), files)
      case Success(Selected(text, abbr)) =>
        if args.audioFile !in files then RunResult(Raised(InvalidAudioFile), files)
        else PhraseLoop(args, Phrases(text), 0, abbr, audio, files)
  }

  /** The phrase loop of `from_flextext` over the selected text's phrases,
      ending with `sys.exit()` once every phrase has been sliced. */
  method SlicePhrases(fs: FileSystem, args: Args, phrases: seq<Element>, textAbbr: Option<string>, audio: seq<int>) returns (outcome: Outcome)
    modifies fs
    ensures RunResult(outcome, fs.files) == PhraseLoop(args, phrases, 0, textAbbr, audio, old(fs.files))
  {
    var k := 0;
    while k < |phrases|
      invariant k <= |phrases|
      invariant PhraseLoop(args, phrases, k, textAbbr, audio, fs.files) == PhraseLoop(args, phrases, 0, textAbbr, audio, old(fs.files))
    {
      var phrase := phrases[k];
      var phraseId := PhraseId(args, phrase, textAbbr, k);
      if phraseId.Failure? {
        return Raised(phraseId.error);
      }
      if "begin-time-offset" !in phrase.attrib {
        return Raised(MissingBeginOffset(phraseId.value, textAbbr, args.flextextFile));
      }
      var start := ToInt(phrase.attrib["begin-time-offset"]);
      if start.Failure? {
        return Raised(start.error);
      }
      var endLiteral := Attr(phrase, "end-time-offset");
      if endLiteral.Failure? {
        return Raised(endLiteral.error);
      }
      var end := ToInt(endLiteral.value);
      if end.Failure? {
        return Raised(end.error);
      }
      var cut := Cut(Target(args.outDir, phraseId.value, args.exportFormat), start.value, end.value, args.exportFormat);
      assert PlanPhrase(args, phrase, textAbbr, k) == Success(cut);
      GetSlice(fs, audio, cut.target, cut.start, cut.end, cut.format);
      k := k + 1;
    }
    return Exited;
  }

  /** The text loop of `from_flextext`: it stops at the first text that is
      `good` and hands back that text with the abbreviation as it stands then,
      or runs out of texts. */
  method SelectText(texts: seq<Element>, requested: Option<string>, slugify: Option<Slugifier>) returns (r: Result<Selection, Exception>)
    ensures r == SelectLoop(texts, 0, requested, slugify)
  {
    var textAbbr := requested;
    var i := 0;
    while i < |texts|
      invariant i <= |texts|
      invariant SelectLoop(texts, i, textAbbr, slugify) == SelectLoop(texts, 0, requested, slugify)
    {
      var text := texts[i];
      var good := false;
      if Truthy(textAbbr) {
        var titleAbbr := GetTextAbbr(text);
        if titleAbbr.Failure? {
          return Failure(titleAbbr.error);
        }
        if titleAbbr.value == textAbbr {
          good := true;
        } else if !Truthy(textAbbr) {
          // the warning about a text without a title-abbreviation is never reached
          assert false;
        }
      } else {
        good := true;
        var first := GetTextAbbr(texts[0]);
        if first.Failure? {
          return Failure(first.error);
        }
        textAbbr := first.value;
      }
      if slugify.Some? {
        var slug := slugify.value(textAbbr);
        if slug.Failure? {
          return Failure(CallbackError(slug.error));
        }
        textAbbr := Some(slug.value);
      }
      if good {
        return Success(Selected(text, textAbbr));
      }
      i := i + 1;
    }
    return Success(NotFound(textAbbr));
  }

  /** `from_flextext(...)` against the filesystem `fs`: the annotation file
      check, the text loop, then the audio file check and the phrase loop for
      the selected text, which ends the run. */
  method FromFlextext(fs: FileSystem, args: Args, tree: Element, audio: seq<int>) returns (outcome: Outcome)
    modifies fs
    ensures RunResult(outcome, fs.files) == Run(args, tree, audio, old(fs.files))
  {
    if !fs.IsFile(args.flextextFile) {
      return Raised(InvalidSourceFile);
    }
    var selection := SelectText(Texts(tree), args.textAbbr, args.slugify);
    match selection
    case Failure(e) =>
      return Raised(e);
    case Success(NotFound(textAbbr)) =>
      // the loop ran out of texts: an error is logged and nothing is raised
      return NoMatch(textAbbr);
    case Success(Selected(text, textAbbr)) =>
      if !fs.IsFile(args.audioFile) {
        return Raised(InvalidAudioFile);
      }
      outcome := SlicePhrases(fs, args, Phrases(text), textAbbr, audio);
  }
}
