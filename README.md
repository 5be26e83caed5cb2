# elan-scissors: a verified model of the phrase cutter

elan-scissors cuts a long field recording into one short clip per
annotated phrase. It reads a FLEx `.flextext` export (interlinear texts, each
with a `title-abbreviation` item and a list of `phrase` elements carrying
`begin-time-offset` / `end-time-offset` in milliseconds and usually a `segnum`
item). It picks one text, derives an identifier for every phrase of that text
and exports `audio[begin:end]` to `<out_dir>/<id>.<format>`. A clip whose file
already exists is skipped.

This project models `from_flextext`, `get_text_abbr`, the default `id_func`
and `get_slice`, and proves what they do:

- `wrappers.dfy`: `Option` and `Result`.
- `element_tree.dfy`: an already-parsed XML element and `iter(tag)`, the
  document-order walk the core relies on.
- `py_int.dfy`: Python's `str()` of an integer and `int()` of a literal. It
  proves that `int(str(i)) == i`.
- `scissors.dfy`: the core.
  - `FindType` is the first-match search shared by `get_text_abbr` and the
    default id function. Its `KeyError` comes from an item without a `type`
    attribute.
  - `Slice` and `SliceInto` model `get_slice`. Files are a map from path to
    contents, owned by the class `FileSystem`. The method `GetSlice` changes
    that map in place.
  - `PlanPhrase` is the body of the phrase loop up to the `get_slice` call.
  - `PhraseLoop`, `SelectLoop` and `Run` state the loops and the whole
    function.
  - The methods `SelectText` (the text loop), `SlicePhrases` (the phrase loop)
    and `FromFlextext` carry out the same steps one at a time against a
    `FileSystem`. Each is proved equal to its function.
  - Python exceptions and `sys.exit()` become an `Outcome`: `Exited`,
    `NoMatch` (the text loop ran out; only an error is logged) or `Raised`.
- `properties.dfy`: a second description of the phrase loop, "plan all clips,
  stopping at the first phrase that raises, then apply the plan". It proves
  the loop equals that description, then proves the run-level properties
  through it: the selection rules, the error order, the stop at a phrase
  without `begin-time-offset`, one new file per phrase, skip-if-exists and
  idempotence.
- `scenario.dfy`: a concrete two-phrase document run with default arguments.

The model follows the code line by line. These points of the code are easy
to misread:

- **Fallback index.** The default id function declares `backup_no=1` as its
  default. The phrase loop, however, always passes the raw 0-based
  `enumerate` index `i`, counted over all of the text's phrases. A phrase at
  position 0 without a `segnum` item therefore gets `ABC-0`, and one at
  position `i` gets `ABC-i`. With default arguments, a text whose first
  phrase has segnum `1` and whose second phrase has none gives `ABC-1` twice,
  so the second clip is skipped (`ScissorsScenario.SecondPhraseCollides`).
- **What `slugify_abbr` touches.** It rewrites the current `text_abbr`: the
  request, or the first text's title abbreviation when there is no request.
  It does so after the comparison, and again on every iteration. The
  candidate texts' abbreviations are compared as they are.
- **Dead warning branch.** The "text with no title-abbreviation" warning
  (`elif not text_abbr`) can never run: that branch is only tested when
  `text_abbr` is truthy. `SelectText` asserts it is dead.
- **Empty slug.** A request that misses the first text and slugifies to the
  empty string makes the next iteration take the "no request" branch. That
  iteration selects the second text, but under the slug of the first text's
  title abbreviation (`ScissorsProperties.EmptySlugSelectsNextText`,
  `ScissorsProperties.FalsyAbbrSelectsCurrentText`).

## Model

| member | source | states |
|---|---|---|
| ElementTree.IterTag | src/elan_scissors/__init__.py:48 | every element `iter(tag)` yields has that tag, and an element with the tag comes first in its own walk |
| ElementTree.IterTagAll | src/elan_scissors/__init__.py:91 | the walk over a list of children yields only elements with the tag |
| ElementTree.IterTagMembers | src/elan_scissors/__init__.py:48 | `iter(tag)` yields exactly the elements of the tree, the element itself included, whose tag is `tag`: none is missed and none is foreign |
| ElementTree.IterTagAllMembers | src/elan_scissors/__init__.py:112 | the walk over a list of children yields exactly the elements with the tag in those children's trees |
| PyInt.Str | src/elan_scissors/__init__.py:83 | defined by its body as `str(i)`: a run of decimal digits, after a minus sign for a negative `i`; characterised by `PyInt.StrRoundTrip` |
| PyInt.ParseInt | src/elan_scissors/__init__.py:118-119 | defined by its body as `int(s)`: a run of decimal digits always parses to a non-negative value, a parsed literal is non-empty, and a literal with a leading `-` parses to a value of at most 0; characterised by `PyInt.StrRoundTrip` |
| PyInt.NatStr | src/elan_scissors/__init__.py:83 | `str(n)` of a natural number is a non-empty run of decimal digits without a leading zero |
| PyInt.NatStrRoundTrip | src/elan_scissors/__init__.py:83 | reading the digits of `str(n)` back gives `n` |
| PyInt.StrRoundTrip | src/elan_scissors/__init__.py:118-119 | `int(str(i)) == i` for every integer, so a printed index parses back |
| PyInt.StrInjective | src/elan_scissors/__init__.py:83 | different indices print differently |
| Scissors.DefaultArgs | src/elan_scissors/__init__.py:54-61 | defined by its body: the keyword defaults `out_dir="."`, no `text_abbr`, no `id_func`, no slugify, `export_format="wav"` |
| Scissors.Truthy | src/elan_scissors/__init__.py:93 | defined by its body: `if text_abbr:` holds for a non-empty string and fails for None and `""` |
| Scissors.Show | src/elan_scissors/__init__.py:83 | defined by its body: an f-string hole renders None as `"None"` and a string as itself |
| Scissors.Items | src/elan_scissors/__init__.py:48 | defined by its body: `iter("item")`, the `item` elements in document order, the element itself first |
| Scissors.Phrases | src/elan_scissors/__init__.py:112 | defined by its body: `text.iter("phrase")` in document order |
| Scissors.Texts | src/elan_scissors/__init__.py:91 | defined by its body: `tree.iter("interlinear-text")` in document order |
| Scissors.IsAbsolute | src/elan_scissors/__init__.py:122 | defined by its body: a name starting with `/`, which pathlib's `/` keeps whole |
| Scissors.FileSystem.IsFile | src/elan_scissors/__init__.py:26 | defined by its body: `Path(path).is_file()` holds exactly for a path in the modelled files, also used at :85 and :109 |
| Scissors.Attr | src/elan_scissors/__init__.py:119 | `attrib[key]` succeeds exactly when the key is present, gives its value, and otherwise raises `KeyError(key)` |
| Scissors.ToInt | src/elan_scissors/__init__.py:118-119 | defined by its body as `int()` with ValueError as `InvalidLiteral(literal)`; a run of digits always converts |
| Scissors.FindType | src/elan_scissors/__init__.py:48-51 | the result is the first item of the type with every earlier item typed otherwise; None means every item has another type; a failure is `KeyError("type")` from an untyped item met before any match |
| Scissors.GetTextAbbr | src/elan_scissors/__init__.py:47-51 | defined by its body on `FindType`; it fails only with `KeyError("type")`; characterised by `Scissors.GetTextAbbrIsFirstMatch` |
| Scissors.GetTextAbbrIsFirstMatch | src/elan_scissors/__init__.py:47-51 | `get_text_abbr` returns the text of the first `title-abbreviation` item, None when there is none, and otherwise raises `KeyError("type")` for an untyped item before it |
| Scissors.DefaultId | src/elan_scissors/__init__.py:79-83 | defined by its body on `FindType`; it fails only with `KeyError("type")` or TypeError; characterised by `Scissors.DefaultIdIsSegnumOrBackup` |
| Scissors.DefaultIdIsSegnumOrBackup | src/elan_scissors/__init__.py:79-83 | the default id is `abbr + sep + segnum` for the first segnum item (a TypeError when either is None), `f"{abbr}{sep}{backup_no}"` when there is no segnum item, and fails only with KeyError or TypeError |
| Scissors.PhraseId | src/elan_scissors/__init__.py:113 | `id_func(phrase, text_abbr, backup_no=i)`: with a caller's function, it succeeds exactly when that function does, returns that function's id, and turns its failure into `CallbackError`; with the default, it fails only with KeyError or TypeError; the default branch is characterised by `Scissors.DefaultPhraseId` |
| Scissors.DefaultPhraseId | src/elan_scissors/__init__.py:77-83 | without a caller's `id_func`, the id is the default id with separator `-` and `backup_no` the position: `abbr-<segnum>` for the first segnum item (TypeError when either is None), else `f"{abbr}-{i}"` when there is no segnum item |
| Scissors.SliceBound | src/elan_scissors/__init__.py:27 | a slice bound is normalised into `0..len`, and an in-range bound is kept |
| Scissors.Slice | src/elan_scissors/__init__.py:27 | `audio[start:end]` is exactly `audio[start..end]` when the bounds are in range, and otherwise the contiguous run between the normalised bounds |
| Scissors.SliceInto | src/elan_scissors/__init__.py:25-30 | after `get_slice` the target exists, every existing file is untouched, and a target that did not exist holds the clip of the slice in the export format |
| Scissors.JoinPath | src/elan_scissors/__init__.py:122 | `Path(dir) / name` ends with `name`; an absolute `name` replaces the directory; otherwise the path starts with `dir/` unless the directory is `""` or `"."` |
| Scissors.Target | src/elan_scissors/__init__.py:122 | the clip path ends with `<id>.<export_format>`; characterised by `ScissorsProperties.TargetInjective` |
| Scissors.FileSystem.Export | src/elan_scissors/__init__.py:28 | exporting replaces or creates exactly one path |
| Scissors.GetSlice | src/elan_scissors/__init__.py:25-30 | the files after the call are the files before it with the skip-if-exists write applied |
| Scissors.PlanPhrase | src/elan_scissors/__init__.py:113-126 | defined by its body as the loop body up to `get_slice`; a planned cut needs both offset attributes and carries the export format; characterised by `Scissors.PlanPhraseSpec` |
| Scissors.PlanPhraseSpec | src/elan_scissors/__init__.py:113-126 | the id comes first and its error propagates; a phrase without `begin-time-offset` raises with the id, the abbreviation and the annotation file; a cut is planned iff the id succeeds and both offsets are present and parse; the clip path is `<out_dir>/<id>.<format>` |
| Scissors.PhraseLoop | src/elan_scissors/__init__.py:112-127 | the phrase loop ends in `sys.exit()` or an exception, never removes a file and never changes an existing one |
| Scissors.SelectStep | src/elan_scissors/__init__.py:92-106 | one iteration of the text loop: without a truthy `text_abbr` the text is good; without slugify a request is kept; with slugify the new `text_abbr` is a string; failures are `KeyError("type")` or the slugifier's |
| Scissors.SelectLoop | src/elan_scissors/__init__.py:91-107 | a selected text comes from the remaining texts; the loop runs out only at the end or with a truthy abbreviation; failures are `KeyError("type")` or the slugifier's |
| Scissors.Run | src/elan_scissors/__init__.py:54-128 | a whole run only adds files and never changes an existing one |
| Scissors.SlicePhrases | src/elan_scissors/__init__.py:112-127 | the imperative phrase loop ends with the outcome and the files `PhraseLoop` gives |
| Scissors.SelectText | src/elan_scissors/__init__.py:91-107 | the imperative text loop returns what `SelectLoop` gives |
| Scissors.FromFlextext | src/elan_scissors/__init__.py:85-128 | the imperative run ends with the outcome and the files that `Run` gives |
| ScissorsProperties.PhrasePlansFrom | src/elan_scissors/__init__.py:112 | one plan per remaining phrase |
| ScissorsProperties.PhrasePlansFromAt | src/elan_scissors/__init__.py:112-113 | the plan at position `k` is the plan of phrase `k` with `backup_no = k` |
| ScissorsProperties.PhrasePlansAt | src/elan_scissors/__init__.py:112-113 | entry `k` of a text's plans is the plan of its phrase `k` |
| ScissorsProperties.PlanOf | src/elan_scissors/__init__.py:112-126 | the planned cuts are the successful plans up to the first failure, which is recorded; without a failure every phrase has a cut |
| ScissorsProperties.Apply | src/elan_scissors/__init__.py:120-126 | applying cuts adds exactly their targets and keeps every existing file |
| ScissorsProperties.PhraseLoopIsPlanFrom | src/elan_scissors/__init__.py:112-127 | the phrase loop from any position equals planning the remaining phrases and applying the plan |
| ScissorsProperties.PhraseLoopIsPlan | src/elan_scissors/__init__.py:112-127 | the whole phrase loop equals its plan applied to the files |
| ScissorsProperties.PlanStopsAtFirstFailure | src/elan_scissors/__init__.py:112-119 | a plan stops at the first phrase that raises and keeps that exception |
| ScissorsProperties.PlanComplete | src/elan_scissors/__init__.py:112-126 | when every phrase plans a cut, the plan holds every phrase's cut in order |
| ScissorsProperties.SliceIntoIdempotent | src/elan_scissors/__init__.py:26-30 | a second identical `get_slice` changes nothing |
| ScissorsProperties.ApplyWhenAllExist | src/elan_scissors/__init__.py:26-30 | cuts whose targets all exist leave the files unchanged |
| ScissorsProperties.ApplyIdempotent | src/elan_scissors/__init__.py:26-30 | applying the same cuts twice is the same as applying them once |
| ScissorsProperties.ApplyKeeps | src/elan_scissors/__init__.py:26-30 | a file that exists before the cuts are applied is kept unchanged |
| ScissorsProperties.ApplyFirstWriter | src/elan_scissors/__init__.py:26-28 | a new file holds the clip of the first cut naming it; later cuts with that target are skipped |
| ScissorsProperties.ApplyCount | src/elan_scissors/__init__.py:120-126 | distinct new targets add exactly one file per cut |
| ScissorsProperties.FallbackIdIsRawIndex | src/elan_scissors/__init__.py:112-113 | a phrase without segnum gets `abbr-i` for its 0-based position `i` among all phrases; the suffix parses back to `i`, and the phrase at position 0 gets `abbr-0` |
| ScissorsProperties.TargetInjective | src/elan_scissors/__init__.py:122 | different ids give different clip paths unless exactly one of them is absolute; pathlib's collapsing of `.` and extra slashes is not covered |
| ScissorsProperties.AbsoluteIdCollides | src/elan_scissors/__init__.py:120-122 | under `out_dir="/x"` the ids `y` and `/x/y` both give `/x/y.wav`, so the second clip is skipped |
| ScissorsProperties.RequestSelectsFirstMatch | src/elan_scissors/__init__.py:93-98 | with a request and no slugify, the first text whose title abbreviation equals the request is selected |
| ScissorsProperties.RequestRaisesFirstError | src/elan_scissors/__init__.py:93-94 | with a request and no slugify, an unreadable title abbreviation before any match raises its error |
| ScissorsProperties.RequestNotFound | src/elan_scissors/__init__.py:91-98 | with a request, no slugify and no text that has the request, the loop runs out and keeps the request |
| ScissorsProperties.UnrequestedSelectsFirstText | src/elan_scissors/__init__.py:101-106 | without a request the first text is selected with its own (slugified when asked) abbreviation, or its error is raised |
| ScissorsProperties.SlugifyAfterComparison | src/elan_scissors/__init__.py:93-106 | at every position `i`, slugify rewrites the current abbreviation after it is compared with text `i`: a match selects text `i` with the slug, a miss continues at `i + 1` with the slug as the abbreviation compared next |
| ScissorsProperties.FalsyAbbrSelectsCurrentText | src/elan_scissors/__init__.py:93-106 | a falsy abbreviation at position `i` selects text `i` with the first text's abbreviation, or with its slug when slugify is on; a slugify error there is raised |
| ScissorsProperties.EmptySlugSelectsNextText | src/elan_scissors/__init__.py:93-106 | a request that misses the first text and slugifies to `""` selects the second text under the slug of the first text's abbreviation |
| ScissorsProperties.MissingSourceRaisesFirst | src/elan_scissors/__init__.py:85-86 | a missing annotation file raises before anything else and writes nothing |
| ScissorsProperties.MissingAudioOnlyAfterSelection | src/elan_scissors/__init__.py:107-110 | a missing audio file raises iff a text was selected, and nothing is written |
| ScissorsProperties.NoMatchWritesNothing | src/elan_scissors/__init__.py:91-128 | when the text loop runs out, the run ends without an exception and writes nothing; this needs a request or a document with no texts |
| ScissorsProperties.RunWritesSelectedText | src/elan_scissors/__init__.py:107-127 | once a text is selected, the run is that text's clip plan applied to the files |
| ScissorsProperties.ApplyUntilFailure | src/elan_scissors/__init__.py:112-126 | a plan cut short at `k` raises that exception and creates exactly the targets of the cuts before `k` |
| ScissorsProperties.RunStopsAtMissingBegin | src/elan_scissors/__init__.py:114-117 | a phrase without `begin-time-offset` raises with its id; the clips of earlier phrases are written, and no later one |
| ScissorsProperties.ApplyDistinctCuts | src/elan_scissors/__init__.py:120-126 | cuts with distinct new targets add one file each, holding that cut's slice |
| ScissorsProperties.ApplyCompletePlan | src/elan_scissors/__init__.py:112-126 | a complete plan with distinct new targets adds one file per phrase, holding that phrase's slice |
| ScissorsProperties.RunOneClipPerPhrase | src/elan_scissors/__init__.py:107-127 | when every phrase plans a cut with distinct new targets, the run exits with one new file per phrase, each holding that phrase's slice |
| ScissorsProperties.RunIdempotent | src/elan_scissors/__init__.py:26-30 | a second run on the files the first run left ends the same way and changes nothing |
| ScissorsScenario.Ids | src/elan_scissors/__init__.py:79-83 | in the worked document, the phrase with segnum `1` and the next phrase without segnum both get id `ABC-1` |
| ScissorsScenario.SecondPhraseCollides | src/elan_scissors/__init__.py:112-127 | with default arguments the worked document exits with only `ABC-1.wav`, holding the first phrase's slice; the second clip is skipped |

## Left out

- Logging (`colorlog`, `log.debug`/`info`/`warning`/`error`) has no effect on the outcome or the files and is not modelled.
- Decoding the recording (`load_file`, `AudioSegment.from_wav`) is left out. The decoded recording is a parameter, one element per millisecond. Its decoding errors are not modelled: a file that is not valid WAV raises in the program after a text is selected and before any clip is written, while the model goes on to write clips.
- Scissors.Slice: follows Python slice semantics on that sequence. pydub's own clamping, negative positions and frame padding are not modelled.
- Scissors.FileSystem.Export: encoding and writing the clip file is not modelled. Its I/O errors are not modelled either.
- Parsing the XML file is left out. `ElementTree.parse` is replaced by an already-parsed `Element` tree, and its parse errors are not modelled.
- The `slugify` library is a caller-supplied function. So is a caller-supplied `id_func`. Beyond what each returns or raises, neither is modelled.
- `process_file` (dispatch on the file suffix) is not part of this model. Neither is the `audio_format` check in `load_file`, which `from_flextext` always calls with `"wav"`.
- `int()` accepts only an optional sign followed by ASCII digits. Surrounding whitespace, `_` separators and non-ASCII digits are not modelled.
- Scissors.JoinPath: pathlib's collapsing of `.` components and of doubled or trailing slashes is not modelled (`..` is kept by pathlib and resolved only by the file system). A directory of `""` or `"."` yields the bare file name, and an absolute name replaces the directory.
- `sys.exit()` becomes the outcome `Exited`. The process exit itself is not modelled.
- Scissors.GetSlice: the existence check and the write are one step. A file created by another process in between is not modelled.
- ScissorsProperties.NoMatchWritesNothing: states what a run whose text loop ran out does. It does not separately state that this is the only way a run ends in `NoMatch`.
