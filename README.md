# Instagram caption bot: caption formatting

This project models the formatting core of `MicrosoftCognitiveCaptionService`,
the class that sends an image to the Microsoft Computer Vision service and turns
the returned `AnalysisResult` into the text the bot replies with. Two private
functions do that:

- `ProcessAnalysisResult` builds the caption message from the first caption's
  text and the names of tags 0 to 4, joined with the literal `" ,"`.
- `ProcessAnalysisInsta` builds the tags message from the first tag's name.

Both fall back to `"Couldn't find a caption for this one"` when there is
nothing to report.

The analysis is an arbitrary input value. C# null is modelled explicitly.
`DotNet.Nullable` wraps every reference and every array element that may be
null. A call that can throw returns a `DotNet.Outcome`. `string.IsNullOrEmpty`,
the `+` operator's treatment of null, `FirstOrDefault` and `ElementAtOrDefault`
are written out in module `DotNet`. Module `Vision` holds the parts of the SDK's
`AnalysisResult` that the code reads. Module `Separated` defines the `" ,"`
separator with a join, a split and an occurrence count. Module `CaptionService`
holds the two functions and what is proved about them.

Two behaviours of the code are worth stating on their own:

- A non-empty tag array still gives the fallback for the tags message when its
  first element is null, or when that tag's Name is null or empty
  (`Services/MicrosoftCognitiveCaptionService.cs:102-105`).
- The code calls `FirstOrDefault` on `Description.Captions` without a
  null-conditional (`Services/MicrosoftCognitiveCaptionService.cs:83`). A
  present Description with a null Captions array therefore throws
  `ArgumentNullException("source")`. It does not give the fallback.

The code never splits strings. Module `Separated` adds a split at `" ,"`, the
inverse of the join on line 90, only so that the proofs can say how many
separators the tag segment holds and that its five slots can be recovered.

## Model

| member | source | states |
|---|---|---|
| DotNet.IsNullOrEmpty | Services/MicrosoftCognitiveCaptionService.cs:95 | `string.IsNullOrEmpty`: true exactly for a null string and the empty string. |
| DotNet.ConcatOperand | Services/MicrosoftCognitiveCaptionService.cs:90 | What a string contributes to `+`: nothing exactly when it is null or empty, and otherwise the string itself. |
| DotNet.FirstOrDefault | Services/MicrosoftCognitiveCaptionService.cs:83 | `FirstOrDefault()` on a non-null array gives the same element as `ElementAtOrDefault(0)`. |
| DotNet.ElementAtOrDefault | Services/MicrosoftCognitiveCaptionService.cs:84-88 | `ElementAtOrDefault(i)` gives the element at an index in range. A non-null result is always an element of the array. Out of range it gives null. |
| CaptionService.FirstCaptionText | Services/MicrosoftCognitiveCaptionService.cs:83 | The chain throws `ArgumentNullException("source")` exactly when the result and Description are present but Captions is null. It gives a non-empty first caption's text as is. With no usable caption it gives null or "". |
| CaptionService.TagName | Services/MicrosoftCognitiveCaptionService.cs:84-88 | For an index of 0 or more, the result is a name exactly when the tag array has a non-null tag with that non-null Name at that index. A negative index gives null. |
| CaptionService.TagSlot | Services/MicrosoftCognitiveCaptionService.cs:84-90 | A non-empty slot is the Name of the tag at that index. |
| CaptionService.TagSlotIs | Services/MicrosoftCognitiveCaptionService.cs:84-90 | A slot is the tag's Name when there is one at that index. Otherwise it is empty: the array is null, the index is out of range, the element is null, or the Name is null. |
| CaptionService.JoinedTags | Services/MicrosoftCognitiveCaptionService.cs:89-90 | The tag segment is the five tag slots joined with `" ,"`. |
| CaptionService.ProcessAnalysisResult | Services/MicrosoftCognitiveCaptionService.cs:81-99 | Throws exactly when a present Description has a null Captions array. The fallback comes exactly when the result, the Description, the first caption or its Text is null, or the array or the Text is empty; the tags play no part. Otherwise the message is the prefix, the caption, three spaces, the tag intro and the joined tags. |
| CaptionService.CaptionOutcomes | Services/MicrosoftCognitiveCaptionService.cs:81-99 | Every result falls into one of three cases: null caption array, no usable caption, or a non-empty first caption. |
| CaptionService.CaptionMessageShape | Services/MicrosoftCognitiveCaptionService.cs:95-98 | A message that is not the fallback comes from a non-empty first caption. It starts with the prefix, and the caption text follows right after it. |
| CaptionService.JoinedTagsSeparators | Services/MicrosoftCognitiveCaptionService.cs:84-90 | The segment has at least four `" ,"` separators. It has exactly four iff none of the five slots contains `" ,"`. In that case, splitting it gives back the five slots. |
| CaptionService.CaptionDependsOnlyOnReadInputs | Services/MicrosoftCognitiveCaptionService.cs:83-98 | Two results with the same first caption text and the same tag names at indices 0 to 4 give the same outcome. This holds whatever else differs, including a null, empty or short tag array. |
| CaptionService.LaterCaptionsIrrelevant | Services/MicrosoftCognitiveCaptionService.cs:83 | Changing any captions after the first leaves the caption message unchanged. |
| CaptionService.LaterTagsIrrelevant | Services/MicrosoftCognitiveCaptionService.cs:84-88 | Changing the tags at index 5 or later leaves the caption message unchanged. So does adding tags after the fifth. |
| CaptionService.TagsIrrelevantWithoutCaption | Services/MicrosoftCognitiveCaptionService.cs:95-96 | Without a usable caption, any tag array gives the same outcome: the fallback or the exception. |
| CaptionService.CaptionExample | Services/MicrosoftCognitiveCaptionService.cs:81-99 | Caption "A cat" with tags cat, pet and animal gives `...:cat ,pet ,animal , ,`. The two missing tags leave empty slots. |
| CaptionService.FirstTagName | Services/MicrosoftCognitiveCaptionService.cs:102 | `Tags?.FirstOrDefault()?.Name` gives the same as the name of the tag at index 0. |
| CaptionService.ProcessAnalysisInsta | Services/MicrosoftCognitiveCaptionService.cs:100-109 | The fallback comes exactly when the result, Tags, the first tag or its Name is null, or the array or the Name is empty. Otherwise the message is `"Your Instagrams Tags will be: "` followed by the first tag's Name. |
| CaptionService.InstaMessageShape | Services/MicrosoftCognitiveCaptionService.cs:104-106 | A tags message that is not the fallback starts with the prefix. What follows the prefix is the first tag's Name, and it is non-empty. |
| CaptionService.InstaDependsOnlyOnFirstTagName | Services/MicrosoftCognitiveCaptionService.cs:102 | Two results with the same first tag name give the same tags message. The Description and the later tags do not matter. |
| CaptionService.InstaExample | Services/MicrosoftCognitiveCaptionService.cs:100-109 | A single tag "dog" gives `"Your Instagrams Tags will be: dog"`. |
| Separated.Split | Services/MicrosoftCognitiveCaptionService.cs:89-90 | Proof aid: the inverse of the line-90 join, splitting at every `" ,"`. It gives one more piece than there are separators. |
| Separated.SplitJoin | Services/MicrosoftCognitiveCaptionService.cs:89-90 | Proof aid: splitting a join gives back the parts, provided no part contains the separator. |
| Separated.JoinSplit | Services/MicrosoftCognitiveCaptionService.cs:89-90 | Proof aid: joining the pieces of a split gives back the string, for every string. |
| Separated.SplitAround | Services/MicrosoftCognitiveCaptionService.cs:89-90 | Proof aid: splitting `a + " ," + b` gives the pieces of `a` followed by the pieces of `b`. The separator cannot straddle a boundary. |
| Separated.JoinCount | Services/MicrosoftCognitiveCaptionService.cs:89-90 | A join of n parts has at least n - 1 separators. It has exactly n - 1 iff no part contains one. |

## Left out

- `GetCaptionAsync` and `GetTagsAsync` (all four overloads): each builds a vision client and awaits one network call into the vendor SDK. That is I/O, asynchrony and a foreign call. Their results are the model's input values.
- The API key read from the web configuration and the two `VisualFeature` arrays: they are hosting configuration and request parameters for the SDK.
- Tag and caption confidence scores, and the other members of `AnalysisResult`: the code never reads them.
- What the vision service returns, and in what order: any `AnalysisResult`, with any nulls, is a possible input.
- The `AnalysisResult` contract types belong to the vendor SDK, which is not part of this model. `Vision` gives only their shape as the code reads it.
