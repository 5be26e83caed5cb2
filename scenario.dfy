/** A worked document: one text `ABC` whose first phrase carries segnum `1`
    and whose second phrase carries none. */
module ScissorsScenario {
  import opened Wrappers
  import opened ElementTree
  import PyInt
  import opened Scissors

  const abbrItem := Element("item", map["type" := "title-abbreviation"], Some("ABC"), [])
  const segnumItem := Element("item", map["type" := "segnum"], Some("1"), [])
  const firstPhrase := Element("phrase", map["begin-time-offset" := "0", "end-time-offset" := "1000"], None, [segnumItem])
  const secondPhrase := Element("phrase", map["begin-time-offset" := "1000", "end-time-offset" := "2500"], None, [])
  const phrases := Element("phrases", map[], None, [firstPhrase, secondPhrase])
  const text := Element("interlinear-text", map[], None, [abbrItem, phrases])
  const document := Element("document", map[], None, [text])

  /** `iter("item")` on the elements of the document, worked out one level at a time. */
  lemma ItemIterations()
    ensures Items(firstPhrase) == [segnumItem]
    ensures Items(secondPhrase) == []
    ensures Items(text) == [abbrItem, segnumItem]
  {
    assert [segnumItem][1..] == [] && [secondPhrase][1..] == [] && [phrases][1..] == [];
    assert [firstPhrase, secondPhrase][1..] == [secondPhrase] && [abbrItem, phrases][1..] == [phrases];
    assert IterTag(segnumItem, "item") == [segnumItem] && IterTag(abbrItem, "item") == [abbrItem];
    assert IterTagAll([segnumItem], "item") == [segnumItem];
    assert IterTag(secondPhrase, "item") == [];
    assert IterTagAll([firstPhrase, secondPhrase], "item") == [segnumItem];
    assert IterTag(phrases, "item") == [segnumItem];
    assert IterTagAll([abbrItem, phrases], "item") == [abbrItem, segnumItem];
  }

  /** `iter("phrase")` on the text. */
  lemma PhraseIterations()
    ensures Phrases(text) == [firstPhrase, secondPhrase]
  {
    assert [segnumItem][1..] == [] && [secondPhrase][1..] == [] && [phrases][1..] == [];
    assert [firstPhrase, secondPhrase][1..] == [secondPhrase] && [abbrItem, phrases][1..] == [phrases];
    assert IterTag(segnumItem, "phrase") == [] && IterTagAll([segnumItem], "phrase") == [];
    assert IterTag(firstPhrase, "phrase") == [firstPhrase] && IterTag(secondPhrase, "phrase") == [secondPhrase];
    assert IterTagAll([firstPhrase, secondPhrase], "phrase") == [firstPhrase, secondPhrase];
    assert IterTag(abbrItem, "phrase") == [] && IterTag(phrases, "phrase") == [firstPhrase, secondPhrase];
    assert IterTagAll([abbrItem, phrases], "phrase") == [firstPhrase, secondPhrase];
  }

  /** `iter("interlinear-text")` on the document. */
  lemma TextIterations()
    ensures Texts(document) == [text]
  {
    assert [segnumItem][1..] == [] && [secondPhrase][1..] == [] && [phrases][1..] == [] && [text][1..] == [];
    assert [firstPhrase, secondPhrase][1..] == [secondPhrase] && [abbrItem, phrases][1..] == [phrases];
    assert IterTag(segnumItem, "interlinear-text") == [] && IterTagAll([segnumItem], "interlinear-text") == [];
    assert IterTag(firstPhrase, "interlinear-text") == [] && IterTag(secondPhrase, "interlinear-text") == [];
    assert IterTagAll([firstPhrase, secondPhrase], "interlinear-text") == [];
    assert IterTag(abbrItem, "interlinear-text") == [] && IterTag(phrases, "interlinear-text") == [];
    assert IterTagAll([abbrItem, phrases], "interlinear-text") == [];
    assert IterTag(text, "interlinear-text") == [text];
    assert IterTagAll([text], "interlinear-text") == [text];
  }

  lemma Literals()
    ensures PyInt.ParseInt("0") == Some(0)
    ensures PyInt.ParseInt("1000") == Some(1000)
    ensures PyInt.ParseInt("2500") == Some(2500)
    ensures PyInt.Str(1) == "1"
    ensures Target(".", "ABC-1", "wav") == "ABC-1.wav"
  {
    assert "1000"[..3] == "100" && "100"[..2] == "10" && "10"[..1] == "1";
    assert "2500"[..3] == "250" && "250"[..2] == "25" && "25"[..1] == "2";
  }

  lemma Ids()
    ensures PhraseId(DefaultArgs("t.flextext", "t.wav"), firstPhrase, Some("ABC"), 0) == Success("ABC-1")
    ensures PhraseId(DefaultArgs("t.flextext", "t.wav"), secondPhrase, Some("ABC"), 1) == Success("ABC-1")
  {
    Literals();
    ItemIterations();
    assert "ABC" + "-" + "1" == "ABC-1";
  }

  /** With every option at its default, the first phrase is named after its
      segnum and the second after its raw 0-based position; both become
      `ABC-1`, so the second clip is never written. */
  lemma SecondPhraseCollides(audio: seq<int>)
    requires |audio| >= 2500
    ensures var files := map["t.flextext" := Other, "t.wav" := Other];
      Run(DefaultArgs("t.flextext", "t.wav"), document, audio, files) ==
      RunResult(Exited, files["ABC-1.wav" := Clip(audio[0..1000], "wav")])
  {
    var args := DefaultArgs("t.flextext", "t.wav");
    var files := map["t.flextext" := Other, "t.wav" := Other];
    Literals();
    Ids();
    ItemIterations();
    PhraseIterations();
    TextIterations();
    assert GetTextAbbr(text) == Success(Some("ABC"));
    assert SelectLoop(Texts(document), 0, None, None) == Success(Selected(text, Some("ABC")));
    var cut := Cut("ABC-1.wav", 0, 1000, "wav");
    assert PlanPhrase(args, firstPhrase, Some("ABC"), 0) == Success(cut);
    assert PlanPhrase(args, secondPhrase, Some("ABC"), 1) == Success(Cut("ABC-1.wav", 1000, 2500, "wav"));
    var written := files["ABC-1.wav" := Clip(audio[0..1000], "wav")];
    assert SliceInto(files, audio, cut) == written;
    assert SliceInto(written, audio, Cut("ABC-1.wav", 1000, 2500, "wav")) == written;
    var phraseList := [firstPhrase, secondPhrase];
    assert PhraseLoop(args, phraseList, 2, Some("ABC"), audio, written) == RunResult(Exited, written);
    assert PhraseLoop(args, phraseList, 1, Some("ABC"), audio, written) == RunResult(Exited, written);
    assert PhraseLoop(args, phraseList, 0, Some("ABC"), audio, files) == RunResult(Exited, written);
  }
}
