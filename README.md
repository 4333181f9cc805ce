# OrbitView core, modelled in Dafny

OrbitView turns a person's profile into a chat-able "AI twin". This project models the parts of it that carry logic, and proves properties about them:

- **Streaming chat.**
  - The Next.js route `POST /api/groq-chat` validates the request, prepends the system prompt, and re-emits the upstream completion as event-stream frames `data: {"content": …}\n\n`, closed by `data: [DONE]\n\n`.
  - The chat page buffers the response body, splits it into lines and accumulates the content until `[DONE]`.
  - End to end: however the network cuts the body into chunks, the page reads back exactly the concatenated delta texts.
- **The profile page's local chat.** Canned replies are chosen by the first key contained in the lower-cased question. They are cut into runs of white space and non-white space and revealed one word per tick.
- **Google sign-in on the Django side.**
  - Unique username generation: a slug of the name or of the e-mail prefix, then `base1`, `base2`, … until one is free.
  - Create-or-merge of the account.
  - The `has_profile` / `profile_username` answer.
- **The login page.** It chooses where to go after sign-in, and it keeps its error text and loading flag consistent on every path.
- **The profile co-pilot.**
  - Keyword-driven edit suggestions.
  - The `field: value` parsing of a suggestion.
  - The edit history: newest first, mark as applied, remove.
- **The profile edit page.** The session guard, and the dispatch that routes a co-pilot edit to exactly one profile field.
- **The onboarding wizard.**
  - Step navigation and the progress indicator.
  - The review step's case-sensitive edit routing.
  - The username availability rule and the launch gate.
- **The showcase profile page.**
  - AI-personality settings, each control changing one field.
  - The comma-separated trait list, with its parse/display round trip.
  - The reset to defaults, and the featured/additional project split.
- **How people are shown.** The user menu's display name and initials, and the profile sidebar's initials, avatar choice and default statistics.

Files and modules:

- `wrappers.dfy` (module `Wrappers`): the `Option` type
- `text.dfy` (module `Text`): the string operations the code takes from its runtimes: `split`, `join`, `trim`, `includes`, `replace`, `toLowerCase`, integer formatting
- `json.dfy` (module `Json`): `JSON.stringify({ content })`, and a decoder for that shape
- `chat_route.dfy` (module `ChatRoute`): `app/api/groq-chat/route.ts`
- `chat_client.dfy` (module `ChatClient`): `app/groq-chat/page.tsx`
- `chat_pipeline.dfy` (module `ChatPipeline`): the route and the page together
- `local_chat.dfy` (module `LocalChat`): `components/chat/ChatInterface.tsx`
- `users.dfy` (module `Users`): `users/views.py`
- `login.dfy` (module `Login`): `app/login/page.tsx` and the error rule of `lib/api/auth.ts`
- `copilot.dfy` (module `CoPilot`): `components/profile/ProfileCoPilot.tsx`
- `profile_edit.dfy` (module `ProfileEdit`): `app/profile/edit/page.tsx`
- `onboarding.dfy` (module `Onboarding`): `components/onboarding/OnboardingWizard.tsx`
- `personality.dfy` (module `Personality`): `app/profile/mightytmz/page.tsx`
- `identity.dfy` (module `Identity`): `components/navigation/UserMenu.tsx` and `components/profile/ProfileSidebar.tsx`

How the code's state is modelled:

- React components whose state changes over time are classes whose fields are the `useState` variables. Each handler is a method, and each timer callback is a method of its own (`ReplyTimeout`, `Tick`, `Complete`, `FinishUpload`, `FinishPaste`, `AnswerCheck`).
- Pure expressions are functions.
- Things the code gets from outside become parameters:
  - the Groq SDK;
  - Google token verification;
  - `JSON.parse` on the page;
  - the ORM;
  - `sessionStorage` and `localStorage`;
  - the clipboard.
- `Date.now()` ids become counters.

Places where the code does something a reader may not expect, and how the model treats each:

- **Review-step routing.** The onboarding review step does not lower-case the field name. The edit page does.
- **Upload timer.** The upload step's timer moves on from the step the upload began on, not from the current step.
- **User-menu initials.** They throw for an empty e-mail when a name is missing. The model returns no initials in that case.
- **Pasted text.** The clipboard callback moves on from the step the paste began on, like the upload timer.
- **Co-pilot values.** Only the text between the first and second ':' of the first line is applied. A fallback reply to "set tagline: CTO" applies `"set tagline`.

## Model

| member | source | states |
|---|---|---|
| `Text.Split` | orbitview_frontend/app/groq-chat/page.tsx:103 | `split` on one character: at least one piece, and no piece contains the separator |
| `Text.SplitJoin` | orbitview_frontend/app/groq-chat/page.tsx:103 | `Join` of the pieces of a split, with the separator, gives back the string |
| `Text.SplitLast` | orbitview_frontend/app/groq-chat/page.tsx:103-104 | the last piece of a split is the text after the last separator, or the whole string |
| `Text.SplitAppend` | orbitview_frontend/app/groq-chat/page.tsx:102-104 | splitting `a + b` re-splits only the last piece of `a` joined with `b` |
| `Text.EmailPrefix` | orbitview_v8/users/views.py:137 | `email.split('@')[0]`: a prefix of the e-mail without `@`, followed by `@` unless it is the whole e-mail |
| `Text.Trim` | orbitview_frontend/app/groq-chat/page.tsx:32 | `trim()`: the result is a slice of the input with only white space around it, and it has none at either end |
| `Text.TrimPadded` | orbitview_frontend/app/profile/mightytmz/page.tsx:722 | trimming removes exactly the white space around already trimmed text |
| `Text.Lower` | orbitview_frontend/components/chat/ChatInterface.tsx:141 | `toLowerCase` keeps the length and lower-cases each character |
| `Text.ReplaceFirst` | orbitview_frontend/components/profile/ProfileCoPilot.tsx:101 | `replace` with a string pattern: the input unchanged when the pattern does not occur, else the input with one occurrence replaced |
| `Text.IndexOf` | orbitview_frontend/components/profile/ProfileCoPilot.tsx:101 | the first occurrence: the pattern sits at the index and at no earlier one; absent exactly when the pattern does not occur |
| `Text.NatToString` | orbitview_v8/users/views.py:132 | the counter's decimal digits: at least one, two or more from 10 on, only digits, the last one `n % 10` |
| `Text.NatToStringInjective` | orbitview_v8/users/views.py:132-144 | different counters give different decimal strings |
| `Json.EncodeContent` | orbitview_frontend/app/api/groq-chat/route.ts:61 | the serialised frame payload never contains a raw line break, and starts with `{"content":"` |
| `Json.DecodeEncode` | orbitview_frontend/app/groq-chat/page.tsx:126-128 | parsing what the route serialised gives back the content, and is falsy exactly for the empty content |
| `Json.ParseString` | orbitview_frontend/app/groq-chat/page.tsx:127 | a string literal is read up to a closing quote of the input, and what is left is exactly the text after that quote |
| `Json.DecodeContent` | orbitview_frontend/app/groq-chat/page.tsx:127-128 | content is only taken from a `{"content":"…"}` document ending in `"}`, and only when it is non-empty |
| `ChatRoute.ErrorResponse` | orbitview_frontend/app/api/groq-chat/route.ts:83-99 | a 401 error gets the fixed invalid-key text with status 401; otherwise the error's message with its status (500 when absent); otherwise "Failed to stream response" with 500 |
| `ChatRoute.UpstreamMessages` | orbitview_frontend/app/api/groq-chat/route.ts:38-44 | the system message first, then the client's messages unchanged and in order |
| `ChatRoute.Upstream` | orbitview_frontend/app/api/groq-chat/route.ts:27-51 | the completion request: the system message then the client's messages, the model and temperature defaulting to `openai/gpt-oss-20b` and 0.5, 1024 completion tokens, top_p 1, streaming on |
| `ChatRoute.Post` | orbitview_frontend/app/api/groq-chat/route.ts:15-99 | missing key gives 500; an unreadable body goes to the catch block with its message; a body without a messages array gives 400; a valid body streams exactly when `create` opens, and a rejection is answered through the catch block's status mapping |
| `ChatRoute.NonEmptyContents` | orbitview_frontend/app/api/groq-chat/route.ts:59-60 | only non-empty deltas are kept, and together they hold all the delta text |
| `ChatRoute.FrameController.Start` | orbitview_frontend/app/api/groq-chat/route.ts:56-69 | the controller receives one frame per non-empty delta in order, then the done frame and close, or it ends in error with no done frame |
| `ChatRoute.FramesPerDelta` | orbitview_frontend/app/api/groq-chat/route.ts:58-63 | a delta adds exactly one frame when it is non-empty and none otherwise, and leaves the earlier frames unchanged |
| `ChatRoute.FrameShape` | orbitview_frontend/app/api/groq-chat/route.ts:61 | a frame is one event: a `data: ` line without a line break, then the blank line that ends the event |
| `ChatClient.Classify` | orbitview_frontend/app/groq-chat/page.tsx:107-109 | a line is the done line, a `data: ` payload other than `[DONE]`, or ignored, exactly as its prefix says |
| `ChatClient.ScanLinesGrows` | orbitview_frontend/app/groq-chat/page.tsx:106-135 | the text only grows; reading stops only at a `[DONE]` line |
| `ChatClient.AppendPayloadGrows` | orbitview_frontend/app/groq-chat/page.tsx:126-134 | the message text only grows; a payload that does not parse to content leaves it unchanged |
| `ChatClient.ScanLinesAppend` | orbitview_frontend/app/groq-chat/page.tsx:106-135 | reading two runs of lines is reading the first and continuing with the second; together with `ScanLinesGrows` and `DoneStopsScan` this specifies `ScanLines` and `Continue` |
| `ChatClient.DoneStopsScan` | orbitview_frontend/app/groq-chat/page.tsx:109-122 | nothing after the `[DONE]` line is ever looked at |
| `ChatClient.FeedExpected` | orbitview_frontend/app/groq-chat/page.tsx:102-104 | feeding a chunk to the reading of what was received gives the reading of the longer text: `Feed` (through `Settle`) agrees with the reference reading `Expected` |
| `ChatClient.FeedAllExpected` | orbitview_frontend/app/groq-chat/page.tsx:83-136 | the reader loop's state, `FeedAll`, is the reading of the concatenated chunks |
| `ChatClient.ExpectedBuffer` | orbitview_frontend/app/groq-chat/page.tsx:102-104 | the kept buffer has no newline and is exactly the text after the last newline received |
| `ChatClient.ChunkingIrrelevant` | orbitview_frontend/app/groq-chat/page.tsx:83-136 | two chunkings of the same bytes are read alike |
| `ChatClient.ErrorText` | orbitview_frontend/app/groq-chat/page.tsx:145 | `Error: ` followed by the message, or by "Failed to get response" when the message is empty |
| `ChatClient.HttpError` | orbitview_frontend/app/groq-chat/page.tsx:69-71 | a response that is not ok fails with a non-empty message |
| `ChatClient.Wire` | orbitview_frontend/app/groq-chat/page.tsx:61-64 | the posted messages are role and content of every message, in order |
| `ChatClient.Saved` | orbitview_frontend/app/groq-chat/page.tsx:88-96 | a finished reading saves one assistant message exactly when the text is non-empty |
| `ChatClient.GroqChatPage.Submit` | orbitview_frontend/app/groq-chat/page.tsx:30-65 | blank input or a running stream changes nothing; otherwise the trimmed input is appended as a user message under the next id, the input is cleared, the reader's buffer, text and received bytes start empty, streaming starts, and the whole conversation is posted |
| `ChatClient.GroqChatPage.Receive` | orbitview_frontend/app/groq-chat/page.tsx:102-135 | after a chunk, the loop state is the reading of everything received; at `[DONE]` the text is saved under the next id and streaming stops; the id counter moves only when a message is added |
| `ChatClient.GroqChatPage.StreamEnd` | orbitview_frontend/app/groq-chat/page.tsx:86-100 | the end of the body saves the text read so far and drops the unfinished line; the id counter moves only when a message is added |
| `ChatClient.GroqChatPage.Fail` | orbitview_frontend/app/groq-chat/page.tsx:137-152 | an abort adds nothing; any other failure adds one error message under the next id; streaming stops either way and the reader's state is kept |
| `ChatClient.GroqChatPage.SetInput` | orbitview_frontend/app/groq-chat/page.tsx:242 | the input is replaced and every other field, the reader's state and the id counter included, is kept |
| `ChatClient.GroqChatPage.ReadBody` | orbitview_frontend/app/groq-chat/page.tsx:83-136 | the reader loop over a whole body, however it is chunked, stops at `[DONE]` or the end and saves `FeedAll` of the chunks, the reference reading of the bytes, under the next id |
| `ChatClient.FeedAllAfterFinish` | orbitview_frontend/app/groq-chat/page.tsx:110-123 | once `[DONE]` has been read, the chunks that follow change nothing |
| `ChatClient.Exchange` | orbitview_frontend/app/groq-chat/page.tsx:30-152 | a question submitted on a fresh page, then the body in any chunks: the conversation is the question under id 0 and, when the reading of the chunks has text, that text under id 1 |
| `ChatPipeline.ReadStreamBody` | orbitview_frontend/app/groq-chat/page.tsx:83-136 | reading the route's complete body, `StreamBody`, finishes with the concatenation of every delta's text `ContentOf` reads |
| `ChatPipeline.RouteToPage` | orbitview_frontend/app/api/groq-chat/route.ts:56-69 | for every way of cutting the body into chunks, the page finishes with the full reply |
| `LocalChat.FirstMatchFrom` | orbitview_frontend/components/chat/ChatInterface.tsx:142-146 | the first key from a position on that the question contains, or none when no later key occurs |
| `LocalChat.Reply` | orbitview_frontend/components/chat/ChatInterface.tsx:131-149 | the answer of the first key contained in the lower-cased question, or the fallback exactly when none is contained |
| `LocalChat.GenerateReply` | orbitview_frontend/components/chat/ChatInterface.tsx:141-148 | the loop with early return computes `Reply` |
| `LocalChat.ReplyIgnoresCase` | orbitview_frontend/components/chat/ChatInterface.tsx:141 | a question and its lower-case form get the same reply |
| `LocalChat.ReplyToFirstKey` | orbitview_frontend/components/chat/ChatInterface.tsx:142-145 | any question containing the first key gets the first answer |
| `LocalChat.SuggestionsAnswered` | orbitview_frontend/components/chat/ChatInterface.tsx:24-30 | each suggested question gets its own table entry |
| `LocalChat.KeyAnswered` | orbitview_frontend/components/chat/ChatInterface.tsx:133-145 | asking exactly a key, in any case, gets that key's answer |
| `LocalChat.MissingQuestionMarkFallsBack` | orbitview_frontend/components/chat/ChatInterface.tsx:138-148 | keys include their question mark, so the last suggestion without it gets the fallback |
| `LocalChat.Runs` | orbitview_frontend/components/chat/ChatInterface.tsx:152 | maximal runs: each uniform, neighbours of opposite kinds, the first starting with the first character |
| `LocalChat.RunsConcat` | orbitview_frontend/components/chat/ChatInterface.tsx:152 | the runs put together are the string |
| `LocalChat.Tokenize` | orbitview_frontend/components/chat/ChatInterface.tsx:151-152 | at least one token; for a non-empty reply, alternating uniform runs |
| `LocalChat.TokenizeConcat` | orbitview_frontend/components/chat/ChatInterface.tsx:151-152 | the tokens put back together are the reply, the empty one included |
| `LocalChat.Retext` | orbitview_frontend/components/chat/ChatInterface.tsx:112-121 | only the message with the reply's id gets the new text |
| `LocalChat.RetextLast` | orbitview_frontend/components/chat/ChatInterface.tsx:112-121 | with unique ids, the update touches the last message only and keeps ids unique |
| `LocalChat.SkipSpaces` | orbitview_frontend/components/chat/ChatInterface.tsx:105-107 | stops at the end or at the first token that is not white space |
| `LocalChat.NextStop` | orbitview_frontend/components/chat/ChatInterface.tsx:104-107 | one past the index, then past every white-space token |
| `LocalChat.OneWordPerTick` | orbitview_frontend/components/chat/ChatInterface.tsx:104-110 | runs alternate, so a tick reveals at most one word and one space run |
| `LocalChat.AppendFresh` | orbitview_frontend/components/chat/ChatInterface.tsx:65-72 | a message stamped with the current clock keeps ids unique |
| `LocalChat.ChatInterface.Send` | orbitview_frontend/components/chat/ChatInterface.tsx:62-74 | blank text or typing in progress changes nothing; otherwise the trimmed text is appended, the input cleared, typing starts |
| `LocalChat.ChatInterface.ReplyTimeout` | orbitview_frontend/components/chat/ChatInterface.tsx:80-93 | an empty reply message is appended and its tokens start revealing from zero; the input is kept and the clock advances by one |
| `LocalChat.ChatInterface.StartStreaming` | orbitview_frontend/components/chat/ChatInterface.tsx:80-93 | while typing, a fresh empty AI message is appended under the next stamp and the tokens of the given response stream from the first; the input is kept and the clock advances by one |
| `LocalChat.ChatInterface.Tick` | orbitview_frontend/components/chat/ChatInterface.tsx:95-127 | the reply message shows the tokens up to the next stop; typing ends when all are shown |
| `LocalChat.ChatInterface.SetInput` | orbitview_frontend/components/chat/ChatInterface.tsx:284 | the input is replaced and nothing else changes |
| `LocalChat.RevealGrows` | orbitview_frontend/components/chat/ChatInterface.tsx:109 | each tick's text extends the previous one, strictly once a non-empty token is added |
| `LocalChat.RevealComplete` | orbitview_frontend/components/chat/ChatInterface.tsx:123-126 | when typing stops the message shows the whole reply |
| `Users.SlugOf` | orbitview_v8/users/views.py:126 | one character's contribution: at most one of a–z, 0–9, and the character itself when it already is one |
| `Users.Slug` | orbitview_v8/users/views.py:126 | only a–z and 0–9 remain, never longer than the input |
| `Users.SlugOfSlug` | orbitview_v8/users/views.py:126 | slugging a slug changes nothing |
| `Users.CandidateInjective` | orbitview_v8/users/views.py:132 | different counters give different candidates |
| `Users.CandidateShape` | orbitview_v8/users/views.py:132 | a numbered candidate is the base followed by one or more decimal digits and nothing else |
| `Users.CandidatesMembers` | orbitview_v8/users/views.py:129-133 | the numbered candidates up to n are exactly `base1` … `base{n}` |
| `Users.CandidatesSize` | orbitview_v8/users/views.py:129-133 | there are n distinct numbered candidates up to n |
| `Users.CandidatesBound` | orbitview_v8/users/views.py:129-133 | the loop cannot skip more candidates than there are taken names, so it ends |
| `Users.FreeFrom` | orbitview_v8/users/views.py:129-133 | the first free numbered candidate from n on is not taken |
| `Users.FirstFreeName` | orbitview_v8/users/views.py:127-133 | the base when free, else a numbered candidate; never taken |
| `Users.FirstFree` | orbitview_v8/users/views.py:127-133 | the uniqueness loop returns `FirstFreeName` |
| `Users.UsernameBase` | orbitview_v8/users/views.py:124-141 | the name's slug when non-empty, else the e-mail prefix's slug; the name is `ClaimedName`, the `name` claim or given and family name |
| `Users.GenerateUsername` | orbitview_v8/users/views.py:118-147 | `_generate_username` is the first free name from the chosen base |
| `Users.GeneratedUsernameFresh` | orbitview_v8/users/views.py:118-147 | a generated username is not taken and consists of a–z and 0–9 |
| `Users.EmptyBaseGivesNumber` | orbitview_v8/users/views.py:139-147 | with no usable name or e-mail prefix the username is empty or a bare number |
| `Users.Merge` | orbitview_v8/users/views.py:70-76 | each non-empty claim replaces its field, empty claims keep the stored value, verification is only ever raised |
| `Users.NewUser` | orbitview_v8/users/views.py:57-67 | the account made on a first sign-in has the e-mail and the generated username and is active; merging the same claims into it changes nothing |
| `Users.MergeIdempotent` | orbitview_v8/users/views.py:70-76 | signing in twice with the same claims changes nothing more |
| `Users.MergeNeverLoses` | orbitview_v8/users/views.py:71-75 | a verified e-mail stays verified and a stored value is never erased |
| `Users.ProfileOf` | orbitview_v8/users/views.py:82-88 | `has_profile` holds exactly when a profile username is returned |
| `Users.CurrentUserView` | orbitview_v8/users/views.py:152-175 | the user's fields (`View`) and a consistent profile pair |
| `Users.UserStore.GoogleAuth` | orbitview_v8/users/views.py:17-115 | every error path with its status and message; otherwise the account is created with a fresh username or merged, and the response reports it |
| `Login.Destination` | orbitview_frontend/app/login/page.tsx:32-36 | a remembered path wins; else the own profile when there is one with a username; else "/" |
| `Login.DestinationIsPath` | orbitview_frontend/app/login/page.tsx:32-36 | the destination is never empty and, without a remembered path, starts with "/" |
| `Login.ClientOutcome` | orbitview_frontend/lib/api/auth.ts:33-38 | a refused sign-in throws the backend's error text, or "Authentication failed"; a success yields the profile pair |
| `Login.LoginPage.Mount` | orbitview_frontend/app/login/page.tsx:55-59 | the remembered profile path, or "" |
| `Login.LoginPage.HandleGoogleSuccess` | orbitview_frontend/app/login/page.tsx:19-49 | a missing credential sets the fixed text and stays; failure sets the message or the fallback and stays; success navigates with no error; loading is off afterwards |
| `Login.LoginPage.HandleGoogleError` | orbitview_frontend/app/login/page.tsx:51-53 | the cancel text, nothing else changes |
| `Login.SignInRoundTrip` | orbitview_frontend/app/login/page.tsx:19-49 | with the backend's answer: success navigates with no error, refusal shows the backend's error text |
| `CoPilot.FallbackQuotesRequest` | orbitview_frontend/components/profile/ProfileCoPilot.tsx:94 | `Fallback` quotes the request verbatim, so it can be read back |
| `CoPilot.FirstRuleFrom` | orbitview_frontend/components/profile/ProfileCoPilot.tsx:70-92 | the first rule from a position on whose keywords the request mentions |
| `CoPilot.EditResponse` | orbitview_frontend/components/profile/ProfileCoPilot.tsx:66-95 | never empty; the reply (`Reply`) of the first rule the lower-cased request mentions, or the fallback when none |
| `CoPilot.TaglineWins` | orbitview_frontend/components/profile/ProfileCoPilot.tsx:70-72 | mentioning "tagline" always gets the tagline reply |
| `CoPilot.EditResponseIgnoresCase` | orbitview_frontend/components/profile/ProfileCoPilot.tsx:68 | the rule chosen does not depend on case |
| `CoPilot.ValueOf` | orbitview_frontend/components/profile/ProfileCoPilot.tsx:100-102 | the value is non-empty exactly when the response is; the value rule for each first-line shape is stated by `ValueWithoutColon`, `ValueAfterOnlyColon` and `ValueBetweenColons` |
| `CoPilot.ValueOfLabelled` | orbitview_frontend/components/profile/ProfileCoPilot.tsx:100-102 | for `head: value` on the first line, the value is the trimmed text after the colon |
| `CoPilot.ValueOfHeading` | orbitview_frontend/components/profile/ProfileCoPilot.tsx:102 | a first line ending in a bare colon falls back to the whole response |
| `CoPilot.ValueWithoutColon` | orbitview_frontend/components/profile/ProfileCoPilot.tsx:100-102 | a first line without ':' applies the whole response |
| `CoPilot.ValueAfterOnlyColon` | orbitview_frontend/components/profile/ProfileCoPilot.tsx:100-102 | with one ':' on the first line, the value is the rest of that line trimmed, or the whole response when that is blank |
| `CoPilot.ValueBetweenColons` | orbitview_frontend/components/profile/ProfileCoPilot.tsx:100-102 | with two or more ':' on the first line, the value is the text between the first two, trimmed, or the whole response when that is blank |
| `CoPilot.ValueAfterColonSpace` | orbitview_frontend/components/profile/ProfileCoPilot.tsx:100-102 | `head: value` with nothing else on the line applies `value` |
| `CoPilot.ValueBetweenColonSpace` | orbitview_frontend/components/profile/ProfileCoPilot.tsx:100-102 | `head: value:…` applies `value`, whatever follows the second ':' |
| `CoPilot.FallbackFirstLine` | orbitview_frontend/components/profile/ProfileCoPilot.tsx:94 | the fallback's first line is the opening, the quoted request, and nothing else |
| `CoPilot.FallbackValue` | orbitview_frontend/components/profile/ProfileCoPilot.tsx:94-102 | applying the fallback to a request without ':' applies the request in quotes |
| `CoPilot.FallbackValueCut` | orbitview_frontend/components/profile/ProfileCoPilot.tsx:94-102 | applying the fallback to a request with a ':' applies only the opening quote and the text before that ':' |
| `CoPilot.FallbackValueCutAtColon` | orbitview_frontend/components/profile/ProfileCoPilot.tsx:94-102 | the fallback to "set tagline: CTO" applies `"set tagline` |
| `CoPilot.QuotedWhole` | orbitview_frontend/components/profile/ProfileCoPilot.tsx:94-102 | a first line `head: "request"` with no other ':' applies `"request"` |
| `CoPilot.QuotedCut` | orbitview_frontend/components/profile/ProfileCoPilot.tsx:94-102 | a first line `head: "before:after"` applies `"before` |
| `CoPilot.FieldOfLabelled` | orbitview_frontend/components/profile/ProfileCoPilot.tsx:101 | `FieldOf`: the field is the lower-cased head with the first "updated" and "added" removed, trimmed |
| `CoPilot.FieldOfReply` | orbitview_frontend/components/profile/ProfileCoPilot.tsx:101 | for a reply `head:…` followed by a blank line and details, the field is worked out from `head` alone |
| `CoPilot.FieldShape` | orbitview_frontend/components/profile/ProfileCoPilot.tsx:101 | a parsed field never contains a colon or a line break |
| `CoPilot.LocationReplyField` | orbitview_frontend/components/profile/ProfileCoPilot.tsx:83-101 | applying the location reply yields the field "location to" |
| `CoPilot.LocationReplyValue` | orbitview_frontend/components/profile/ProfileCoPilot.tsx:83-102 | applying the location reply yields the value "San Francisco, CA" |
| `CoPilot.BioReplyValue` | orbitview_frontend/components/profile/ProfileCoPilot.tsx:79-102 | the bio reply's heading has a bare colon, so its value is the whole reply |
| `CoPilot.MarkApplied` | orbitview_frontend/components/profile/ProfileCoPilot.tsx:108-110 | the history keeps its length |
| `CoPilot.MarkAppliedEffect` | orbitview_frontend/components/profile/ProfileCoPilot.tsx:108-110 | entries with the id are marked applied, the others are unchanged |
| `CoPilot.MarkAppliedIdempotent` | orbitview_frontend/components/profile/ProfileCoPilot.tsx:108-110 | applying twice marks nothing more |
| `CoPilot.RemoveById` | orbitview_frontend/components/profile/ProfileCoPilot.tsx:274-276 | exactly the entries without the id remain |
| `CoPilot.RemoveByIdAppend` | orbitview_frontend/components/profile/ProfileCoPilot.tsx:274-276 | removal distributes over concatenation, so order is kept |
| `CoPilot.RemoveOne` | orbitview_frontend/components/profile/ProfileCoPilot.tsx:274-276 | with unique ids, removing a present id drops exactly one entry |
| `CoPilot.NoneRemoved` | orbitview_frontend/components/profile/ProfileCoPilot.tsx:274-276 | removing an absent id changes nothing |
| `CoPilot.RemoveKeepsIds` | orbitview_frontend/components/profile/ProfileCoPilot.tsx:274-276 | removal keeps ids unique |
| `CoPilot.CoPilotPanel.SetInput` | orbitview_frontend/components/profile/ProfileCoPilot.tsx:326 | the input is replaced and nothing else changes |
| `CoPilot.CoPilotPanel.Submit` | orbitview_frontend/components/profile/ProfileCoPilot.tsx:44-50 | blank input or processing changes nothing; otherwise the trimmed request is pending, the input cleared |
| `CoPilot.CoPilotPanel.Complete` | orbitview_frontend/components/profile/ProfileCoPilot.tsx:52-63 | the pending request's entry, with its generated response and not applied, goes first in the history |
| `CoPilot.CoPilotPanel.Record` | orbitview_frontend/components/profile/ProfileCoPilot.tsx:52-63 | an unapplied entry with a fresh id goes first in the history, and processing stops |
| `CoPilot.CoPilotPanel.Apply` | orbitview_frontend/components/profile/ProfileCoPilot.tsx:97-111 | the parsed edit is handed on, and the entry is marked applied; the pending request and the id counter are kept |
| `CoPilot.CoPilotPanel.Remove` | orbitview_frontend/components/profile/ProfileCoPilot.tsx:273-276 | the history without the entries with that id; the pending request and the id counter are kept |
| `ProfileEdit.Set` | orbitview_frontend/app/profile/edit/page.tsx:48-73 | the field has the new value, every other field is unchanged |
| `ProfileEdit.FieldsDetermine` | orbitview_frontend/app/profile/edit/page.tsx:15-27 | the nine fields are all a profile holds |
| `ProfileEdit.SetSame` | orbitview_frontend/app/profile/edit/page.tsx:48-73 | writing a field's own value changes nothing |
| `ProfileEdit.FirstKeywordFrom` | orbitview_frontend/app/profile/edit/page.tsx:47-74 | the first keyword from a position on that the lower-cased field contains |
| `ProfileEdit.Target` | orbitview_frontend/app/profile/edit/page.tsx:45-74 | the field of the first keyword contained, in the order name … twitter, or none when none is contained |
| `ProfileEdit.ApplyEdit` | orbitview_frontend/app/profile/edit/page.tsx:43-75 | an unrouted edit changes nothing; a routed one sets that field and no other |
| `ProfileEdit.ApplyLocationEdit` | orbitview_frontend/app/profile/edit/page.tsx:53-54 | an edit of the field "location to" sets the location to its value and leaves every other field as it was |
| `ProfileEdit.ApplyEditChangesAtMostOne` | orbitview_frontend/app/profile/edit/page.tsx:43-75 | at most one field differs after an edit |
| `ProfileEdit.LinkEditKeepsOtherLinks` | orbitview_frontend/app/profile/edit/page.tsx:64-68 | a GitHub edit keeps the other two links and every other field |
| `ProfileEdit.NameWins` | orbitview_frontend/app/profile/edit/page.tsx:47-48 | any field containing "name" edits the name |
| `ProfileEdit.UsernameEditsName` | orbitview_frontend/app/profile/edit/page.tsx:47-48 | "username" edits the display name |
| `ProfileEdit.GithubNameEditsName` | orbitview_frontend/app/profile/edit/page.tsx:47-64 | "github name" edits the display name, not the GitHub link |
| `ProfileEdit.CoPilotLocationEdit` | orbitview_frontend/app/profile/edit/page.tsx:53-54 | the co-pilot's location reply, parsed by `CoPilot.ParseApply` and applied, sets the location to "San Francisco, CA" and nothing else |
| `ProfileEdit.EditPage.CheckSession` | orbitview_frontend/app/profile/edit/page.tsx:29-41 | a valid session shows the page; any other redirects to /login and leaves it loading |
| `ProfileEdit.EditPage.HandleApplyEdit` | orbitview_frontend/app/profile/edit/page.tsx:43-75 | the profile becomes `ApplyEdit` of it; nothing else changes |
| `ProfileEdit.EditPage.EditField` | orbitview_frontend/app/profile/edit/page.tsx:153 | an input's change writes that one field |
| `ProfileEdit.EditPage.ToggleCoPilot` | orbitview_frontend/app/profile/edit/page.tsx:117 | the panel flag flips, nothing else changes |
| `Onboarding.ProgressShape` | orbitview_frontend/components/onboarding/OnboardingWizard.tsx:60-84 | ✓ iff before the current step, lit iff not after it, the bar lit iff ticked; the current step alone is lit without ✓ |
| `Onboarding.Progress` | orbitview_frontend/components/onboarding/OnboardingWizard.tsx:55-91 | one (ticked, lit) pair per step |
| `Onboarding.ProgressLayout` | orbitview_frontend/components/onboarding/OnboardingWizard.tsx:55-91 | on step n: n−1 ticked and lit, one lit, the rest dark |
| `Onboarding.RenderedBodies` | orbitview_frontend/components/onboarding/OnboardingWizard.tsx:105-127 | at most one body renders |
| `Onboarding.OneBodyPerStep` | orbitview_frontend/components/onboarding/OnboardingWizard.tsx:105-127 | each step from 1 to 4 renders exactly its own body |
| `Onboarding.ReviewTarget` | orbitview_frontend/components/onboarding/OnboardingWizard.tsx:294-295 | name, else tagline, else bio, each iff its keyword occurs case-sensitively and no earlier one does |
| `Onboarding.ReviewApply` | orbitview_frontend/components/onboarding/OnboardingWizard.tsx:292-301 | only the routed one of name, tagline and bio changes; an unrouted edit changes nothing |
| `Onboarding.ReviewIsCaseSensitive` | orbitview_frontend/components/onboarding/OnboardingWizard.tsx:294 | the field "Name" changes nothing |
| `Onboarding.AvailabilityLabel` | orbitview_frontend/components/onboarding/OnboardingWizard.tsx:418-430 | shown iff a username is typed; "✓ Available" exactly when launch is enabled |
| `Onboarding.Wizard.GoTo` | orbitview_frontend/components/onboarding/OnboardingWizard.tsx:105-127 | entering step 3 or 4 remounts its body's state; leaving step 4 drops its pending checks |
| `Onboarding.Wizard.NextStep` | orbitview_frontend/components/onboarding/OnboardingWizard.tsx:37-41 | forward one step, except on the last; entering step 3 resets the review, entering step 4 clears the check result, leaving step 4 drops its pending checks; an upload or paste in flight is kept |
| `Onboarding.Wizard.PrevStep` | orbitview_frontend/components/onboarding/OnboardingWizard.tsx:43-47 | back one step, except on the first; the same remounts as going forward; an upload or paste in flight is kept |
| `Onboarding.Wizard.StartUpload` | orbitview_frontend/components/onboarding/OnboardingWizard.tsx:174-175 | processing starts and remembers the step it began on; every other field is kept |
| `Onboarding.Wizard.FinishUpload` | orbitview_frontend/components/onboarding/OnboardingWizard.tsx:177-181 | the placeholder text is stored and the wizard moves on from the step the upload began on, remounting what it enters; the username is kept |
| `Onboarding.Wizard.StartPaste` | orbitview_frontend/components/onboarding/OnboardingWizard.tsx:184-185 | the clipboard read starts and remembers the step it began on; every other field is kept |
| `Onboarding.Wizard.FinishPaste` | orbitview_frontend/components/onboarding/OnboardingWizard.tsx:185-188 | the pasted text becomes the resume data and the wizard moves on from the step the paste began on, remounting what it enters; the username is kept |
| `Onboarding.PasteThenBack` | orbitview_frontend/components/onboarding/OnboardingWizard.tsx:184-188 | paste started on step 2, Back, then the clipboard answers: the wizard is on step 3 with the pasted text |
| `Onboarding.UploadThenBack` | orbitview_frontend/components/onboarding/OnboardingWizard.tsx:174-181 | upload started on step 2, Back, then the timer fires: the wizard is on step 3 with the placeholder text |
| `Onboarding.Wizard.ApplyReviewEdit` | orbitview_frontend/components/onboarding/OnboardingWizard.tsx:292-301 | the review profile becomes `ReviewApply` of it; every other field is kept |
| `Onboarding.Wizard.CheckAvailability` | orbitview_frontend/components/onboarding/OnboardingWizard.tsx:397-399 | the username is stored at once and its check is queued; the step, resume data, review and any upload or paste are kept |
| `Onboarding.Wizard.AnswerCheck` | orbitview_frontend/components/onboarding/OnboardingWizard.tsx:400-402 | the oldest check records whether its value is longer than 3 with no space; the last one agrees with the username; the step, resume data, review and any upload or paste are kept |
| `Onboarding.Wizard.Launch` | orbitview_frontend/components/onboarding/OnboardingWizard.tsx:466-471 | navigates to `/<username>` exactly when availability is true; null and false disable it |
| `Onboarding.LaunchMatchesUsername` | orbitview_frontend/components/onboarding/OnboardingWizard.tsx:401-467 | after the last check, launch (`LaunchEnabled`) is possible iff the username is longer than 3 with no space (`Available`) |
| `Personality.OptionsCoverEveryValue` | orbitview_frontend/app/profile/mightytmz/page.tsx:606-618 | every tone and every response length has a button |
| `Personality.ChooseTone` | orbitview_frontend/app/profile/mightytmz/page.tsx:635 | the tone is set and no other field changes |
| `Personality.SlideFormality` | orbitview_frontend/app/profile/mightytmz/page.tsx:653-663 | the formality, a whole number from 1 to 10, is set and no other field changes |
| `Personality.ChooseLength` | orbitview_frontend/app/profile/mightytmz/page.tsx:679 | the response length is set and no other field changes |
| `Personality.EditInstructions` | orbitview_frontend/app/profile/mightytmz/page.tsx:698-703 | the box reads back the typed text; clearing it removes the setting and never stores ""; no other field changes |
| `Personality.EditTraits` | orbitview_frontend/app/profile/mightytmz/page.tsx:717-724 | the traits become the parse of the text and no other field changes |
| `Personality.Reset` | orbitview_frontend/app/profile/mightytmz/page.tsx:46-51 | professional, formality 7, balanced, no custom instructions, the two default traits |
| `Personality.CleanTraits` | orbitview_frontend/app/profile/mightytmz/page.tsx:722-723 | each kept trait is non-empty, trimmed and comma-free; never more traits than pieces |
| `Personality.ParseTraits` | orbitview_frontend/app/profile/mightytmz/page.tsx:720-723 | every parsed trait is non-empty, trimmed and comma-free |
| `Personality.ParseDisplayedTraits` | orbitview_frontend/app/profile/mightytmz/page.tsx:716-723 | re-parsing the displayed list of well-formed traits gives the same list |
| `Personality.DisplayTraits` | orbitview_frontend/app/profile/mightytmz/page.tsx:716 | no traits show as an empty field; a shown list of well-formed traits parses back to the same list |
| `Personality.ParsePadded` | orbitview_frontend/app/profile/mightytmz/page.tsx:716-723 | the same round trip with leading white space, which is trimmed off |
| `Personality.TraitsStable` | orbitview_frontend/app/profile/mightytmz/page.tsx:716-724 | after an edit, parsing what the field shows gives the same traits |
| `Personality.FeaturedProject` | orbitview_frontend/app/profile/mightytmz/page.tsx:59 | `works[0]`, absent exactly for no works |
| `Personality.Card` | orbitview_frontend/app/profile/mightytmz/page.tsx:63-73 | a card carries its work's fields unchanged, with `impact ?? ""` replacing only a missing impact |
| `Personality.AdditionalProjects` | orbitview_frontend/app/profile/mightytmz/page.tsx:62-75 | one card per work after the first, in order, with impact defaulting to "" |
| `Personality.ProjectsPartitionWorks` | orbitview_frontend/app/profile/mightytmz/page.tsx:59-75 | the featured project and the grid show every work once, in order |
| `Identity.DisplayName` | orbitview_frontend/components/navigation/UserMenu.tsx:68-70 | first + " " + last when both are non-empty; otherwise the e-mail text before the first "@", or the whole e-mail |
| `Identity.MenuInitials` | orbitview_frontend/components/navigation/UserMenu.tsx:72-74 | the first character of each name, not upper-cased; otherwise the upper-cased first e-mail character; none for an empty e-mail |
| `Identity.InitialsFollowDisplayName` | orbitview_frontend/components/navigation/UserMenu.tsx:68-72 | both take the same branch: the initials are the display name's word starts, or its upper-cased first character |
| `Identity.MenuShowsInitials` | orbitview_frontend/components/navigation/UserMenu.tsx:83-93 | initials are shown exactly when there is no non-empty avatar URL |
| `Identity.Heads` | orbitview_frontend/components/profile/ProfileSidebar.tsx:41-42 | at most one character per piece, each the first character of a non-empty piece |
| `Identity.HeadsAppend` | orbitview_frontend/components/profile/ProfileSidebar.tsx:41-42 | the initials of consecutive pieces are concatenated in order |
| `Identity.EmptyPieceContributesNothing` | orbitview_frontend/components/profile/ProfileSidebar.tsx:40-42 | empty pieces from extra spaces add nothing |
| `Identity.HeadsOfWords` | orbitview_frontend/components/profile/ProfileSidebar.tsx:41-42 | non-empty pieces each contribute exactly their first character |
| `Identity.SidebarInitials` | orbitview_frontend/components/profile/ProfileSidebar.tsx:39-42 | never more characters than space-separated pieces |
| `Identity.SingleWordInitial` | orbitview_frontend/components/profile/ProfileSidebar.tsx:39-42 | a one-word name yields its first character |
| `Identity.TwoWordInitials` | orbitview_frontend/components/profile/ProfileSidebar.tsx:39-42 | "First Last" yields the two first characters |
| `Identity.SidebarStats` | orbitview_frontend/components/profile/ProfileSidebar.tsx:27 | zero conversations and zero questions when no stats are given |
| `Identity.SidebarBadge` | orbitview_frontend/components/profile/ProfileSidebar.tsx:35-44 | the initials are shown exactly when no non-empty avatar is given |

## Left out

- The Groq SDK and the network are parameters: `create` in `ChatRoute.Post`, the chunks and failures fed to the page, `verify` in `Users.UserStore.GoogleAuth`, and the outcome fed to the login page.
- `stream_groq` in `users/views.py` is not modelled. It is I/O around the SDK.
- A chunk without a `choices` array makes `chunk.choices[0]` throw inside the stream's `try`. `ChatRoute.Chunk` cannot express such a chunk; the stream error the throw leads to is the `upstreamFails` case of `ChatRoute.FrameController.Start`.
- The logout request and the settings navigation of the user menu are not modelled. They are I/O with no logic.
- `JSON.parse` on the chat page is the parameter `decode`. For the one shape the route sends, `Json.DecodeContent` is proved to invert `Json.EncodeContent`.
- `JSON.stringify` is not modelled for lone UTF-16 surrogates.
- `request.json()` is reduced to the three fields the route reads. A non-string `role` or `content` is not modelled: the route forwards messages untouched.
- `TextEncoder` and `TextDecoder` are not modelled: chunks are characters, not bytes.
- Case mapping is ASCII only. The exceptions are the Kelvin sign and the dotted capital I, which `Users.SlugOf` handles as Python does. `Text.Lower` and `Text.UpperChar` do not model other non-ASCII letters.
- Identity.MenuInitials: upper-cases ASCII letters only. JavaScript's `toUpperCase` may turn one character into two (for example "ß" into "SS").
- Lengths are counted in characters, not in UTF-16 code units.
- Timers are explicit methods rather than real time:
  - the 400 ms reply delay and 45 ms tick in the local chat;
  - the 1500 ms co-pilot delay;
  - the 2000 ms upload delay, with one upload in flight at a time;
  - the 500 ms availability delay.
- `AbortController` is reduced to the `Aborted` failure.
- The 2000 ms "copied" indicators and clipboard writes are not modelled.
- `Date.now()` ids are counters, so ids are unique (`ChatClient.IdsBelow`, part of the page's invariant), which `Date.now()` does not guarantee.
- Message timestamps are left out.
- Users.UserStore.GoogleAuth: does not model the ORM's own exceptions from `get_or_create` and `save`, or a race between two sign-ins.
- Users.UserStore.GoogleAuth: models `sub` and `email` only as present or missing, not as non-string values.
- Users.UserStore.GoogleAuth: does not model the session `login` call.
- Users.View: leaves out the responses' `id` (a random UUID rendered as a string), because nothing in the model reads it.
- Users.View: treats a null `avatar_url` as "". Accounts created at sign-in store the `picture` claim, which defaults to "", and a merge never writes null, so only accounts made elsewhere can hold null.
- Users.ClaimedName: does not strip the joined name. White space never survives slugging, so the username is the same either way.
- `ChatRoute.Post` treats `model` and `temperature` as absent or present. An explicit `null` is not modelled.
- The route's module-level warning when the key is missing is not modelled.
- The edit page's "save" alert is not modelled.
- Markup, styling and animation are not modelled.
- `showAllProjects`, the chat overlay and personality-panel toggles on the showcase page are not modelled. They are plain UI flags.
- The clipboard read in the onboarding paste is the `text` parameter of `Onboarding.Wizard.FinishPaste`. One read is in flight at a time, as for the upload timer.
