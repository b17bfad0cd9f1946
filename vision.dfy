/**
 The shape of the Computer Vision SDK's `AnalysisResult`, reduced to the
 members the caption service reads. Every reference in it may be null, and
 so may every element of its arrays. Confidence scores, the description's own
 tag list and the result's other members are never read and are left out.
 */
module Vision {
  import opened DotNet

  /** A candidate caption; only its `Text` is read. */
  datatype Caption = Caption(text: Nullable<string>)

  /** A tag; only its `Name` is read. */
  datatype Tag = Tag(name: Nullable<string>)

  /** The description feature: an array of candidate captions. */
  datatype Description = Description(captions: Nullable<seq<Nullable<Caption>>>)

  /** The analysis returned by the vision service. */
  datatype AnalysisResult = AnalysisResult(
    description: Nullable<Description>,
    tags: Nullable<seq<Nullable<Tag>>>)
}
