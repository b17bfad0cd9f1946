/**
 The two private formatting functions of `MicrosoftCognitiveCaptionService`:
 `ProcessAnalysisResult`, which turns a Description+Tags analysis into the
 caption message, and `ProcessAnalysisInsta`, which turns a Tags analysis into
 the tags message. The analysis itself is an arbitrary input value; the calls
 that fetch it from the vision service are not part of this model.
 */
module CaptionService {
  import opened DotNet
  import opened Vision
  import opened Separated

  const Fallback: string := "Couldn't find a caption for this one"
  const CaptionPrefix: string := "Your Instagram caption can be: "
  const CaptionGap: string := "   "
  const TagsIntro: string := ".Most relevant tags I can think of :"
  const TagsPrefix: string := "Your Instagrams Tags will be: "

  /** How many tag names the caption message lists. */
  const ListedTags: nat := 5

  // ---------------------------------------------------------------------
  // The source's null-conditional chains
  // ---------------------------------------------------------------------

  /**
   `result?.Description?.Captions.FirstOrDefault()?.Text`. The chain stops at a
   null result or a null description, but `Captions` is not guarded: when it is
   null, the `FirstOrDefault` extension method throws.
   */
  function FirstCaptionText(result: Nullable<AnalysisResult>): (r: Outcome<Nullable<string>>)
    ensures r.Throws? <==> CaptionArrayMissing(result)
    ensures r.Throws? ==> r.exception == ArgumentNullException("source")
    ensures forall text :: FirstCaptionIs(result, text) ==> r == Returns(Ref(text))
    ensures NoCaption(result) ==> r.Returns? && IsNullOrEmpty(r.value)
  {
    match result
    case Null => Returns(Null)
    case Ref(r) =>
      match r.description
      case Null => Returns(Null)
      case Ref(d) =>
        match d.captions
        case Null => Throws(ArgumentNullException("source"))
        case Ref(captions) =>
          match FirstOrDefault(captions)
          case Null => Returns(Null)
          case Ref(caption) => Returns(caption.text)
  }

  /** `result?.Tags?.ElementAtOrDefault(index)?.Name`. */
  function TagName(result: Nullable<AnalysisResult>, index: int): (r: Nullable<string>)
    ensures index >= 0 ==> forall name :: r == Ref(name) <==> TagNameIs(result, index, name)
    ensures index < 0 ==> r.Null?
  {
    match result
    case Null => Null
    case Ref(r) =>
      match r.tags
      case Null => Null
      case Ref(tags) =>
        match ElementAtOrDefault(tags, index)
        case Null => Null
        case Ref(tag) => tag.name
  }

  /** What the tag at `index` contributes to the joined tag segment. */
  function TagSlot(result: Nullable<AnalysisResult>, index: int): (r: string)
    ensures r != "" ==> 0 <= index && TagNameIs(result, index, r)
  {
    ConcatOperand(TagName(result, index))
  }

  /**
   `im + im5 + im1 + im5 + im2 + im5 + im3 + im5 + im4` with `im5 = " ,"`: the
   five tag slots joined with the separator.
   */
  function JoinedTags(result: Nullable<AnalysisResult>): (r: string)
    ensures r == Join(TagSlots(result))
  {
    var s0, s1, s2, s3, s4 :=
      TagSlot(result, 0), TagSlot(result, 1), TagSlot(result, 2), TagSlot(result, 3), TagSlot(result, 4);
    JoinFive(s0, s1, s2, s3, s4);
    assert TagSlots(result) == [s0, s1, s2, s3, s4];
    s0 + Separator + s1 + Separator + s2 + Separator + s3 + Separator + s4
  }

  /**
   `ProcessAnalysisResult(result)`. It throws exactly when a present description
   has a null caption array; it gives the fallback exactly when there is no
   usable caption, whatever the tags; otherwise the message is built around the
   first caption's text.
   */
  function ProcessAnalysisResult(result: Nullable<AnalysisResult>): (r: Outcome<string>)
    ensures r.Throws? <==> CaptionArrayMissing(result)
    ensures r.Throws? ==> r.exception == ArgumentNullException("source")
    ensures r == Returns(Fallback) <==> NoCaption(result)
    ensures forall text :: FirstCaptionIs(result, text) ==>
      r == Returns(CaptionPrefix + text + CaptionGap + TagsIntro + JoinedTags(result))
  {
    match FirstCaptionText(result)
    case Throws(e) => Throws(e)
    case Returns(message) =>
      if IsNullOrEmpty(message) then Returns(Fallback)
      else Returns(CaptionPrefix + message.value + CaptionGap + TagsIntro + JoinedTags(result))
  }

  /** `insta?.Tags?.FirstOrDefault()?.Name`: the same as the name of the tag at index 0. */
  function FirstTagName(insta: Nullable<AnalysisResult>): (r: Nullable<string>)
    ensures r == TagName(insta, 0)
  {
    match insta
    case Null => Null
    case Ref(r) =>
      match r.tags
      case Null => Null
      case Ref(tags) =>
        match FirstOrDefault(tags)
        case Null => Null
        case Ref(tag) => tag.name
  }

  /**
   `ProcessAnalysisInsta(insta)`. It gives the fallback exactly when there is no
   usable first tag name, and otherwise the tags prefix followed by that name.
   */
  function ProcessAnalysisInsta(insta: Nullable<AnalysisResult>): (r: string)
    ensures r == Fallback <==> NoFirstTag(insta)
    ensures forall name :: TagNameIs(insta, 0, name) && name != "" ==> r == TagsPrefix + name
  {
    var name := FirstTagName(insta);
    if IsNullOrEmpty(name) then Fallback
    else
      assert (TagsPrefix + name.value)[0] != Fallback[0];
      TagsPrefix + name.value
  }

  // ---------------------------------------------------------------------
  // The analysis, read directly off its structure
  // ---------------------------------------------------------------------

  /** The result and its description are present, but the description's caption array is null. */
  predicate CaptionArrayMissing(result: Nullable<AnalysisResult>) {
    && result.Ref?
    && result.value.description.Ref?
    && result.value.description.value.captions.Null?
  }

  /** The first caption of the analysis exists and its text is `text`, a non-empty string. */
  predicate FirstCaptionIs(result: Nullable<AnalysisResult>, text: string) {
    && result.Ref?
    && result.value.description.Ref?
    && result.value.description.value.captions.Ref?
    && |result.value.description.value.captions.value| > 0
    && result.value.description.value.captions.value[0] == Ref(Caption(Ref(text)))
    && text != ""
  }

  /**
   No usable caption: the result is null, the description is null, the caption
   array is empty, its first element is null, or that caption's text is null or
   empty.
   */
  predicate NoCaption(result: Nullable<AnalysisResult>) {
    || result.Null?
    || result.value.description.Null?
    || (var captions := result.value.description.value.captions;
        && captions.Ref?
        && (|| |captions.value| == 0
            || captions.value[0].Null?
            || captions.value[0].value.text.Null?
            || captions.value[0].value.text.value == ""))
  }

  /** The name of the tag at `index`, when the tag array has one there and it has a name. */
  predicate TagNameIs(result: Nullable<AnalysisResult>, index: nat, name: string) {
    && result.Ref?
    && result.value.tags.Ref?
    && index < |result.value.tags.value|
    && result.value.tags.value[index].Ref?
    && result.value.tags.value[index].value.name == Ref(name)
  }

  /** No usable first tag: the result, the tag array, its first element or that tag's name is null, or the name is empty. */
  predicate NoFirstTag(insta: Nullable<AnalysisResult>) {
    || insta.Null?
    || insta.value.tags.Null?
    || |insta.value.tags.value| == 0
    || insta.value.tags.value[0].Null?
    || insta.value.tags.value[0].value.name.Null?
    || insta.value.tags.value[0].value.name.value == ""
  }

  /** The five strings the caption message lists, tag slot by tag slot. */
  function TagSlots(result: Nullable<AnalysisResult>): (slots: seq<string>)
    ensures |slots| == ListedTags
    ensures forall i :: 0 <= i < ListedTags ==> slots[i] == TagSlot(result, i)
  {
    seq(ListedTags, i => TagSlot(result, i))
  }

  // ---------------------------------------------------------------------
  // ProcessAnalysisResult
  // ---------------------------------------------------------------------

  /** Every outcome is one of the three: an exception, the fallback, or a message built around a caption. */
  lemma CaptionOutcomes(result: Nullable<AnalysisResult>)
    ensures || CaptionArrayMissing(result)
            || NoCaption(result)
            || exists text :: FirstCaptionIs(result, text)
  {
    if !CaptionArrayMissing(result) && !NoCaption(result) {
      var text := result.value.description.value.captions.value[0].value.text.value;
      assert FirstCaptionIs(result, text);
    }
  }

  /** A tag slot is the tag's name when there is one at that index, and empty otherwise. */
  lemma TagSlotIs(result: Nullable<AnalysisResult>, index: nat)
    ensures forall name :: TagNameIs(result, index, name) ==> TagSlot(result, index) == name
    ensures (!exists name :: TagNameIs(result, index, name)) ==> TagSlot(result, index) == ""
  {
  }

  /**
   The joined tag segment always holds five slots: it has at least four `" ,"`
   separators, and exactly four precisely when no listed tag name contains
   `" ,"`; in that case splitting it at `" ,"` gives back the five slots.
   */
  lemma JoinedTagsSeparators(result: Nullable<AnalysisResult>)
    ensures SeparatorCount(JoinedTags(result)) >= ListedTags - 1
    ensures SeparatorCount(JoinedTags(result)) == ListedTags - 1
        <==> forall i :: 0 <= i < ListedTags ==> !ContainsSeparator(TagSlot(result, i))
    ensures SeparatorCount(JoinedTags(result)) == ListedTags - 1
        ==> Split(JoinedTags(result)) == TagSlots(result)
  {
    JoinCount(TagSlots(result));
    if SeparatorCount(JoinedTags(result)) == ListedTags - 1 {
      SplitJoin(TagSlots(result));
    }
  }

  /** A caption message that is not the fallback starts with the prefix, and the caption follows it. */
  lemma CaptionMessageShape(result: Nullable<AnalysisResult>)
    requires ProcessAnalysisResult(result).Returns?
    requires ProcessAnalysisResult(result).value != Fallback
    ensures exists text :: FirstCaptionIs(result, text)
    ensures forall text :: FirstCaptionIs(result, text) ==>
      var message := ProcessAnalysisResult(result).value;
      && CaptionPrefix <= message
      && message[|CaptionPrefix|..|CaptionPrefix| + |text|] == text
  {
  }

  /** Replacing the captions after the first leaves the caption message unchanged. */
  lemma LaterCaptionsIrrelevant(r: AnalysisResult, captions: seq<Nullable<Caption>>, captions': seq<Nullable<Caption>>)
    requires r.description == Ref(Description(Ref(captions)))
    requires |captions| > 0 && |captions'| > 0 && captions'[0] == captions[0]
    ensures ProcessAnalysisResult(Ref(r.(description := Ref(Description(Ref(captions'))))))
         == ProcessAnalysisResult(Ref(r))
  {
  }

  /** Replacing the tags from index five on, or adding tags after the fifth, leaves the caption message unchanged. */
  lemma LaterTagsIrrelevant(r: AnalysisResult, tags: seq<Nullable<Tag>>, tags': seq<Nullable<Tag>>)
    requires r.tags == Ref(tags)
    requires |tags| >= ListedTags && |tags'| >= ListedTags && tags'[..ListedTags] == tags[..ListedTags]
    ensures ProcessAnalysisResult(Ref(r.(tags := Ref(tags')))) == ProcessAnalysisResult(Ref(r))
  {
  }

  /**
   The caption message reads nothing but the first caption's text and the names
   of the tags at indices 0 to 4: two results that agree on those give the same
   outcome, whatever else differs (a null tag array, a short one, later tags).
   */
  lemma CaptionDependsOnlyOnReadInputs(result: Nullable<AnalysisResult>, result': Nullable<AnalysisResult>)
    requires FirstCaptionText(result) == FirstCaptionText(result')
    requires forall i :: 0 <= i < ListedTags ==> TagName(result, i) == TagName(result', i)
    ensures ProcessAnalysisResult(result) == ProcessAnalysisResult(result')
  {
  }

  /** Without a usable caption, the tags cannot change the outcome. */
  lemma TagsIrrelevantWithoutCaption(r: AnalysisResult, tags': Nullable<seq<Nullable<Tag>>>)
    requires NoCaption(Ref(r)) || CaptionArrayMissing(Ref(r))
    ensures ProcessAnalysisResult(Ref(r.(tags := tags'))) == ProcessAnalysisResult(Ref(r))
  {
  }

  /** A worked example: caption "A cat" with three tags leaves two empty slots at the end. */
  lemma CaptionExample()
    ensures ProcessAnalysisResult(Ref(AnalysisResult(
              Ref(Description(Ref([Ref(Caption(Ref("A cat")))]))),
              Ref([Ref(Tag(Ref("cat"))), Ref(Tag(Ref("pet"))), Ref(Tag(Ref("animal")))]))))
         == Returns("Your Instagram caption can be: " + "A cat" + "   "
                    + ".Most relevant tags I can think of :" + "cat ,pet ,animal , ,")
  {
    var result := Ref(AnalysisResult(
      Ref(Description(Ref([Ref(Caption(Ref("A cat")))]))),
      Ref([Ref(Tag(Ref("cat"))), Ref(Tag(Ref("pet"))), Ref(Tag(Ref("animal")))])));
    assert TagSlot(result, 0) == "cat" && TagSlot(result, 1) == "pet" && TagSlot(result, 2) == "animal";
    assert TagSlot(result, 3) == "" && TagSlot(result, 4) == "";
    assert JoinedTags(result) == "cat ,pet ,animal , ,";
    assert FirstCaptionIs(result, "A cat");
  }

  // ---------------------------------------------------------------------
  // ProcessAnalysisInsta
  // ---------------------------------------------------------------------

  /** A tags message that is not the fallback gives back the first tag's name after the prefix. */
  lemma InstaMessageShape(insta: Nullable<AnalysisResult>)
    requires ProcessAnalysisInsta(insta) != Fallback
    ensures TagsPrefix <= ProcessAnalysisInsta(insta)
    ensures TagNameIs(insta, 0, ProcessAnalysisInsta(insta)[|TagsPrefix|..])
    ensures ProcessAnalysisInsta(insta)[|TagsPrefix|..] != ""
  {
  }

  /** The tags message depends on the first tag's name alone. */
  lemma InstaDependsOnlyOnFirstTagName(insta: Nullable<AnalysisResult>, insta': Nullable<AnalysisResult>)
    requires forall name :: TagNameIs(insta, 0, name) <==> TagNameIs(insta', 0, name)
    ensures ProcessAnalysisInsta(insta) == ProcessAnalysisInsta(insta')
  {
  }

  /** A worked example: a single tag "dog". */
  lemma InstaExample()
    ensures ProcessAnalysisInsta(Ref(AnalysisResult(Null, Ref([Ref(Tag(Ref("dog")))]))))
         == "Your Instagrams Tags will be: dog"
  {
  }
}
