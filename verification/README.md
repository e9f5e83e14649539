# Stream normalisation of the Cerebras and Groq chat adapters

A Dafny model of the two provider adapters in `services/`. Each adapter
turns a conversation of `ChatMessage`s into a streaming request. It then
turns the upstream stream of chunks into the text fragments the caller
receives.

- **Cerebras** (`services/cerebras.ts`) does four things:
  - It maps the message roles onto the SDK's three roles.
  - It defaults the model to `qwen-3-32b`.
  - It asks for a stream with reasoning hidden.
  - It runs every chunk through a two-state reasoning filter, described below.
- **Groq** (`services/groq.ts`) sends the messages as they are and defaults
  the model to `moonshotai/kimi-k2-instruct-0905`. Each chunk becomes exactly
  one fragment: `choices[0]?.delta?.content || ''`. That fragment may be
  empty.

The Cerebras filter is a state machine. Its state is either `Normal` or
`InReasoningBlock`. Chunk by chunk it does the following:

- A chunk with no usable delta is ignored.
- A delta with a truthy `reasoning` field is dropped.
- A content delta that holds `<think>`, `<thinking>` or `<reasoning>` enters
  the block and is dropped.
- Inside the block, a delta without `</think>`, `</thinking>` or
  `</reasoning>` is dropped.
- A delta with one of those closing tags leaves the block and goes through
  the single replacement `/.*<\/?(?:redacted_)?reasoning>/`.
- Every surviving delta loses all matches of `/@\w+\s*\(\d+-\d+\)\s*/g`.
- The result is yielded untrimmed, but only when `trim()` leaves something.

The filter is modelled as a pure step `(state, chunk) -> (state, optional
fragment)`, and the stream is modelled as a fold of that step over a finite
sequence of chunks.

Files, one module each:

| file | module | contents |
|---|---|---|
| `wrappers.dfy` | `Wrappers` | `Option` |
| `text.dfy` | `Text` | JavaScript string tests written out by hand: `includes`, `trim`, `\s`, `\w`, `\d`, and the line terminators `.` refuses |
| `chat.dfy` | `Chat` | `ChatMessage`, the `hint \|\| default` model choice, and the chunk fields both SDKs deliver |
| `streams.dfy` | `Streams` | the generic fold of a step over a stream, and its laws |
| `markers.dfy` | `Markers` | the global marker replacement |
| `reasoning_cut.dfy` | `ReasoningCut` | the reasoning-tag replacement, proved against a leftmost-greedy reading of the pattern |
| `cerebras.dfy` | `Cerebras` | role conversion, the request, chunk classification, the filter and its properties |
| `groq.dfy` | `Groq` | the request and the one-fragment-per-chunk stream |
| `adapters.dfy` | `Adapters` | the two adapters agree on plain streams |
| `cerebras_examples.dfy` | `CerebrasExamples` | concrete and parametric streams through the filter |

## Where the code departs from its own comments

The comments in `services/cerebras.ts` describe the filter more loosely
than the code behaves. This model follows the code:

- The comment at cerebras.ts:94 says the closing tag and everything before
  it are removed. The comments at cerebras.ts:76-77 name `<think>`,
  `<thinking>` and `<reasoning>` as the block tags. But the cut at
  cerebras.ts:95 only recognises the `reasoning` tags (`</reasoning>`,
  `<reasoning>` and their `redacted_` forms). So a block closed by
  `</think>` or `</thinking>` keeps its closing tag and the text before it,
  and that text is emitted (`Cerebras.ClosingWithoutReasoningTagKeepsText`,
  `CerebrasExamples.ThinkCloserIsEmitted`).
- Even for a `reasoning` tag, the cut is not "everything before the tag".
  `.` does not cross a line terminator, so the cut runs from the start of
  the line holding the first tag to the end of the last tag on that line.
  Earlier lines of the delta survive
  (`ReasoningCut.CutReasoningIsRegexReplace`).
- The comment at cerebras.ts:88 says the filter ignores deltas until the
  closer is found. A delta holding both an opening and a closing tag only
  opens a block, because the opening test at cerebras.ts:81-86 comes first.
  Every later delta is then dropped until one carries a closing tag, so an
  answer that follows a one-delta `<think>…</think>` is lost
  (`Cerebras.OneDeltaBlockSilencesRest`,
  `CerebrasExamples.SelfClosedBlockLosesAnswer`).
- The comment at cerebras.ts:102 speaks of removing blocks that start with
  `@bash`, `@code` and the like. The replacement at cerebras.ts:103 removes
  only the marker `@name(n-m)` and the white space after it, for any word
  name and anywhere in the delta. The text that follows the marker stays
  (`Markers.StripOneMarker`), and so does an `@` that opens no marker
  (`Markers.StripKeepsFailedAt`).

## Model

| member | source | states |
|---|---|---|
| Chat.ChooseModel | services/cerebras.ts:42 | an absent or empty hint yields the default, any other hint is used verbatim |
| Chat.ChosenModelNonEmpty | services/groq.ts:11 | with a non-empty default the model is never empty, and it equals the hint exactly when the hint is present and non-empty |
| Text.Contains | services/cerebras.ts:81-83 | `includes` is true exactly when the pattern occurs at some index |
| Text.MatchesAtIsOccurrence | services/cerebras.ts:95 | the character-by-character tag comparison agrees with slice occurrence |
| Text.Trim | services/cerebras.ts:105 | `trim()` is never longer than its input, and a non-empty result starts and ends with a character that is not white space |
| Text.TrimIsMiddle | services/cerebras.ts:105 | `trim()` is a contiguous middle of the text, with only white space cut on either side and non-space characters at both ends |
| Text.TrimEmptyIffBlank | services/cerebras.ts:105 | `trim()` is empty exactly when every character is white space |
| Streams.Fold | services/cerebras.ts:58-111 | the loop yields at most one fragment per chunk |
| Streams.FoldAppend | services/cerebras.ts:56-58 | the state carried across the loop makes the fold incremental over concatenation |
| Streams.FoldSkipsSilentChunk | services/cerebras.ts:58-73 | a chunk that never changes the state or yields can be deleted from anywhere in the stream |
| Streams.FoldIsMap | services/cerebras.ts:58-111 | a stream whose every step keeps the state and yields yields exactly those fragments |
| Markers.SpanIsForced | services/cerebras.ts:103 | a greedy class run (`\w+`, `\s*`, `\d+`) has exactly one possible end |
| Markers.MarkerEndIsRegexMatch | services/cerebras.ts:103 | the marker scanner finds a match of `@\w+\s*\(\d+-\d+\)\s*` at the start exactly when one exists, and it reports the longest one |
| Markers.MarkerEndIsSound | services/cerebras.ts:103 | a reported marker end is a match, and its trailing white-space run cannot grow |
| Markers.MarkerEndIsComplete | services/cerebras.ts:103 | every match at the start is found and ends no later than the reported end |
| Markers.MarkerEnd | services/cerebras.ts:103 | a reported marker starts with `@`, is at least seven characters long (`@w(d-d)`), and fits in the text |
| Markers.StripMarkers | services/cerebras.ts:103 | the global replacement is never longer than its input, and its characters are a sub-multiset of the input's |
| Markers.StripIsSubsequence | services/cerebras.ts:103 | the replacement only deletes: the result is a subsequence of the input, in the same order |
| Markers.StripKeepsFailedAt | services/cerebras.ts:103 | an `@` that opens no marker (as in `user@example.com`) is kept, and scanning goes on at the next character |
| Markers.StripKeepsPlainPrefix | services/cerebras.ts:103 | text before the first `@` is copied unchanged ahead of the stripped rest |
| Markers.StripWithoutAtIsIdentity | services/cerebras.ts:103 | a delta without `@` is left exactly as it was |
| Markers.StripDropsLeadingMarker | services/cerebras.ts:103 | a leading marker is removed with all white space after it, and scanning resumes behind it |
| Markers.MarkerEndOfSplit | services/cerebras.ts:103 | any match of the pattern at the start whose trailing white space cannot grow is exactly the one the scanner reports |
| Markers.StripOneMarker | services/cerebras.ts:103 | a marker between two `@`-free texts is removed and the texts are joined unchanged |
| ReasoningCut.TagLenAt | services/cerebras.ts:95 | a reported tag lies within the text and starts with `<` |
| ReasoningCut.TagLenAtIsTag | services/cerebras.ts:95 | the tag test reports one of the four literal alternatives of `<\/?(?:redacted_)?reasoning>`, and 0 exactly when none starts there |
| ReasoningCut.LineStart | services/cerebras.ts:95 | the start of a line: `.*` can reach back to it and not beyond |
| ReasoningCut.FirstTag | services/cerebras.ts:95 | the first index where a tag starts, with no tag before it |
| ReasoningCut.LastTagInLine | services/cerebras.ts:95 | a tag start on the same line at or after the first one |
| ReasoningCut.LastTagInLineIsLast | services/cerebras.ts:95 | no tag starts later on that line |
| ReasoningCut.CutReasoning | services/cerebras.ts:95 | text without a tag is unchanged, and text with a tag gets shorter |
| ReasoningCut.CutReasoningIsRegexReplace | services/cerebras.ts:95 | without a match nothing changes; a match implies a leftmost-greedy match; and the result is the text with exactly that match removed |
| ReasoningCut.MatchFromLineStart | services/cerebras.ts:95 | the line start of the first tag, together with the last tag on that line, is the leftmost-greedy match |
| ReasoningCut.LeftmostGreedyIsCut | services/cerebras.ts:95 | the leftmost-greedy match is what the scan removes |
| ReasoningCut.LeftmostGreedyExists | services/cerebras.ts:95 | a tag anywhere in the text gives a leftmost-greedy match |
| ReasoningCut.NoMatchNoCut | services/cerebras.ts:95 | without any match the text is unchanged |
| Cerebras.ConvertRole | services/cerebras.ts:18-33 | `system` and `assistant` keep their role, and every other role string becomes `user` |
| Cerebras.RoleRoundTrip | services/cerebras.ts:18-33 | on the three declared roles the mapping is a bijection onto the SDK roles |
| Cerebras.ConvertMessages | services/cerebras.ts:14-35 | same length; each message keeps its content and position and gets the converted role |
| Cerebras.ConvertMessagesRoundTrip | services/cerebras.ts:17-34 | for conversations with declared roles, reading the converted messages back gives the original conversation |
| Cerebras.RestoreMessages | services/cerebras.ts:14-35 | reading a Cerebras conversation back gives only declared roles and keeps every content in place |
| Cerebras.RestoreMessagesRoundTrip | services/cerebras.ts:17-34 | every Cerebras conversation is the conversion of the conversation read back from it, so the conversion is onto |
| Cerebras.BuildRequest | services/cerebras.ts:40-50 | streaming is on; messages are converted; the model is the hint or `qwen-3-32b` and never empty; reasoning is hidden and disabled |
| Cerebras.Classify | services/cerebras.ts:61-73 | a chunk is a reasoning event exactly when its first delta has a truthy `reasoning`; it is a content event exactly when that delta has no truthy `reasoning` and a truthy `content`, and the event then carries that content |
| Cerebras.HasOpeningTag | services/cerebras.ts:81-83 | a delta opens a block exactly when `<think>`, `<thinking>` or `<reasoning>` occurs at some index |
| Cerebras.HasClosingTag | services/cerebras.ts:90-92 | a delta closes a block exactly when `</think>`, `</thinking>` or `</reasoning>` occurs at some index |
| Cerebras.Emit | services/cerebras.ts:105-107 | the text is yielded exactly when it is not all white space, and then untrimmed |
| Cerebras.Transition | services/cerebras.ts:78-107 | a yielded fragment is never blank, and a non-content event changes nothing |
| Cerebras.Step | services/cerebras.ts:58-108 | a chunk without a usable delta, with truthy `reasoning`, or with falsy `content` changes nothing; a content delta with an opening tag enters the block and yields nothing; a yielded fragment is never blank and leaves the filter in the normal state |
| Cerebras.RunFragmentsNonBlank | services/cerebras.ts:58-111 | at most one fragment per chunk, and no fragment is blank |
| Cerebras.Filter | services/cerebras.ts:54-112 | the generator yields at most one fragment per chunk and never a blank one |
| Cerebras.ReasoningDeltaDropped | services/cerebras.ts:67-70 | a truthy `reasoning` field drops the chunk and leaves the state, even with content present |
| Cerebras.ContentlessChunkDropped | services/cerebras.ts:61-73 | a chunk without choices, without a delta, or with empty or absent content drops and leaves the state |
| Cerebras.OpeningTagEntersBlock | services/cerebras.ts:81-86 | an opening tag enters the block from either state and drops the delta, even when the delta also closes |
| Cerebras.UnclosedDeltaDropped | services/cerebras.ts:89-98 | inside the block, a delta without a closing tag is dropped and the block goes on |
| Cerebras.ClosingTagLeavesBlock | services/cerebras.ts:89-107 | a closing delta returns to normal and emits its cut and stripped text when that is not blank |
| Cerebras.NormalDeltaStripped | services/cerebras.ts:101-107 | outside the block, a delta without an opening tag is only stripped of markers |
| Cerebras.ClosingWithoutReasoningTagKeepsText | services/cerebras.ts:90-95 | a block closed without a reasoning tag keeps its closing tag and the text before it |
| Cerebras.RunAppend | services/cerebras.ts:56-58 | filtering is incremental: the stream can be split anywhere, with the state carried over |
| Cerebras.IgnoredChunkIsInvisible | services/cerebras.ts:61-73 | a chunk that is not a content delta can be removed from anywhere in the stream without changing the output or the final state |
| Cerebras.BlockSwallowsUnclosedDeltas | services/cerebras.ts:89-98 | nothing is buffered: inside a block, deltas without a closing tag all vanish and the block never ends |
| Cerebras.OneDeltaBlockSilencesRest | services/cerebras.ts:81-98 | after a delta that opens, every delta is dropped until one carries a closing tag |
| Groq.BuildRequest | services/groq.ts:9-17 | messages go upstream unchanged; streaming is on; the model is the hint or the Kimi default and never empty |
| Groq.Fragment | services/groq.ts:21 | a non-empty fragment is the first choice's content |
| Groq.FragmentIsContent | services/groq.ts:21 | the fragment is empty exactly when the first choice has no non-empty content, including when `choices` is empty |
| Groq.Stream | services/groq.ts:19-23 | exactly one fragment per chunk, in order |
| Groq.StreamAppend | services/groq.ts:20-21 | the Groq stream maps over concatenation |
| Groq.EmptyFragmentPassesThrough | services/groq.ts:21 | an empty fragment does reach the caller |
| Adapters.PlainStep | services/cerebras.ts:73-107 | from the normal state, which it keeps, a plain content delta passes the filter untouched |
| Adapters.PlainStreamsAgree | services/cerebras.ts:58-111 | on plain chunks the Cerebras filter yields exactly the Groq fragments and stays normal |
| CerebrasExamples.LeadingTagCut | services/cerebras.ts:95 | a delta that starts with a reasoning tag and has no other `<` loses exactly that tag |
| CerebrasExamples.CloserText | services/cerebras.ts:81-95 | `</reasoning>` followed by `<`-free text opens nothing, closes the block, and the cut leaves the text |
| CerebrasExamples.CloserStep | services/cerebras.ts:89-107 | inside the block, `</reasoning>` plus an answer with a marker emits the answer without the marker |
| CerebrasExamples.ThinkCloserIsEmitted | services/cerebras.ts:90-95 | inside the block, `</think>Hello` is emitted whole, closing tag included |
| CerebrasExamples.SelfClosedBlockLosesAnswer | services/cerebras.ts:81-98 | `<think>plan</think>` then `Hello` yields nothing and ends inside the block |
| CerebrasExamples.MixedStreamKeepsOnlyAnswer | services/cerebras.ts:58-111 | a stream of a reasoning-field delta, a `<think>` delta, a content delta without a closing tag, a delta that closes the block with `</reasoning>` and carries an answer with a marker, and a blank delta yields only the answer without its marker, and no empty fragment (a `</think>` closer would instead emit the tag with the answer) |
| CerebrasExamples.ToolMarkerExample | services/cerebras.ts:58-111 | the five-chunk stream of a reasoning field `weighing options`, then the content deltas `<think>`, `plan`, `</reasoning>Hi @tool(1-3) there` and a blank `" "`, yields exactly `["Hi there"]` and nothing for the blank delta |

## Left out

- Client construction and the network calls (`new Cerebras()`,
  `new Groq()`, `chat.completions.create`) are foreign I/O. The upstream
  stream is a given finite sequence of chunks, and a rejected request is
  not modelled.
- Asynchronous generators, `await` and early cancellation are not modelled.
  Streams are finite sequences folded by the step.
- The fixed sampling parameters are not modelled: `temperature`, `top_p`,
  `max_completion_tokens` and Groq's `stop: null`. They are numbers passed
  through to the SDK, with no behaviour in this code.
- The unused `accumulatedContent` variable is not modelled.
- The `AIService` interface and `index.ts` are left out. They hold
  declarations and server plumbing with no logic.
- Strings are sequences of Unicode scalar values, not UTF-16 code units.
  A lone surrogate and the surrogate pairs that JavaScript sees as two
  characters are not modelled.
- Cerebras.Classify: a `null` entry in `choices` is not representable.
  Every entry is a `Choice`, and the source's `choice &&` test reduces to
  the delta being present.
- Cerebras.Classify: `reasoning` and `content` are modelled as optional
  strings. Other truthy JavaScript values that the SDK types rule out are
  not modelled.
- Groq.Fragment: a chunk without a `choices` array is not modelled. The
  SDK's chunk type always has one, and on such a chunk `chunk.choices[0]`
  at groq.ts:21 would throw a `TypeError` rather than yield.
- Markers.MarkerEnd: its own contract states only the shape and bounds of
  the reported end. The full statement is the separate lemma
  `Markers.MarkerEndIsRegexMatch`.
