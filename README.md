# Youth-policy chat assistant: front-end state machines and the policy search

This project models the logic core of a Django web application that answers questions about
youth policies and searches a table of policies. The model covers four parts.

- **The chat page** (`chat.js`) has a send/stop button that drives one request at a time.
  The model covers the conversation selected in the history sidebar, the rule that
  shortens sidebar titles, and the three-level font-size button.
- **The main page** (`main.js`) has a chat box whose send button is disabled while a
  request is out. Its search panel has multi-select tag groups built around a '제한없음'
  ("no restriction") button.
- **The search page** (`search.js`) has single-select filter rows and a region picker. The
  picker keeps a duplicate-free list of selected regions, shows a summary of it, and sends
  the first region's province code with the search.
- **The server** (`chat/views.py`) covers `search_policy` and `ask_question`.
  `search_policy` narrows the policy table with a chain of Django `Q` filters and returns
  the first 50 results. `ask_question` builds its prompt from the answered ones among
  the user's three latest questions, then stores the new question and its answer.

The browser's module-level variables and the elements they drive are fields of classes.
`Chat.ChatPage`, `MainPage.MainChat` and `Search.RegionPicker` hold them. A button group is
an `array<bool>` of `active` flags (`MainPage.TagGroup`, `Search.Row`).

`sendMessage` is an `async` function with one suspension point. It is split into two
methods:
- `SendMessage` runs the statements up to the awaited `fetch`.
- `Settle(id, reply)` runs the continuation, its `catch` and its `finally` when request
  `id` settles.

Between the two calls, other events can run. Each request gets a model id. The page keeps
two sets of ids: the requests still in flight, and those whose `AbortController` was
aborted. With these sets the model can state exactly when at most one request is in
flight. That holds on the send/stop button path. The Enter key and the suggested questions
call `sendMessage` directly, so they can start a second request (`Chat.EnterKeyWhileSending`,
`MainPage.EnterKeyWhileDisabled`).

On the server, the `Policy` table is a `seq<Policy>` in one fixed order, and a `Q` object is a
datatype with its SQL meaning (`Views.Eval`). `policies.filter(q)` is `Views.Filter`. The
whole search is specified by a reference definition, `Views.Matching`: the policies that
meet every criterion, in that order. `Views.SearchPolicy` is proved against it. The
`Question`/`Answer` tables are a `seq<QuestionRow>` in creation order. The answering
pipeline `run_rag` is a function parameter of `Views.AskQuestion`.

Helpers shared by several files:
- `Strings`: substring containment, prefix, truncation, a generic strip, decimal numerals.
- `JsText`: JavaScript's `trim()`.
- `PyText`: Python's `int()` on a string.
- `Buttons`: counts and one-hot flag sequences.
- `FontSize`: the font-size cycle.
- `MessageLog`: the chat area as a log of entries, and the request bookkeeping both chat
  front ends share.

## Model

| member | source | states |
|---|---|---|
| Chat.Classify | django_app/config/static/js/chat.js:96-122 | A settled request ends as aborted exactly when its controller was aborted. It ends as a success exactly when it was not aborted and an answer arrived, and then carries that answer. Otherwise it ends as a failure. |
| Chat.BotText | django_app/config/static/js/chat.js:106-122 | The bot message of a success is the answer. An abort gives '응답 생성이 중지되었습니다.'. Any failure gives the generic apology. |
| Chat.HistoryTitle | django_app/config/static/js/chat.js:509-511 | A title longer than 20 characters shows as its first 20 characters plus '...'. A title of 1 to 20 characters shows unchanged. A missing or empty title shows '새 대화'. The result is never empty and is at most 23 characters long. |
| Chat.ChatPage.constructor | django_app/config/static/js/chat.js:36-37 | The page starts idle. There is no controller, no request, an empty chat area, the placeholder shown, no conversation selected and the first font size. The single-flight invariant holds. |
| Chat.ChatPage.SendMessage | django_app/config/static/js/chat.js:63-100 | If the input trims to '', only the input may differ. Otherwise the page becomes sending with the new request's controller, and the placeholder is hidden. The trimmed user message and the request's loading indicator are appended, the input is cleared and the request is in flight. It does not consult `isSending`. |
| Chat.ChatPage.StopMessage | django_app/config/static/js/chat.js:53-58 | It aborts the current controller when there is one, and does nothing otherwise. It changes only the set of aborted requests, so `isSending` and the controller are not cleared. |
| Chat.ChatPage.HandleSendButton | django_app/config/static/js/chat.js:42-48 | While sending, the button stops: the current controller is aborted and nothing else changes: not the log, the input, the requests, the placeholder, the selected conversation or the font size. While idle, it has the effect of `sendMessage`. It preserves the single-flight invariant. |
| Chat.ChatPage.Settle | django_app/config/static/js/chat.js:102-129 | It removes the request's loading indicator and appends exactly one bot message (the answer, the stop notice or the apology). The page becomes idle with no controller, whichever request was current. It preserves the single-flight invariant. |
| Chat.ChatPage.KeyDown | django_app/config/static/js/chat.js:401-406 | Enter without Shift and outside an IME composition has the effect of `sendMessage`, also while sending. Any other key changes nothing. The invariant is kept only from an idle page. |
| Chat.ChatPage.SetInputValue | django_app/config/static/js/chat.js:455-461 | The input is filled with the text, then `sendMessage` runs on it directly. |
| Chat.ChatPage.SendThroughButton | django_app/config/static/js/chat.js:42-129 | From an idle page with a non-blank input, a send through the button leaves the log with exactly the trimmed user message and one bot message. The bot message is the stop notice when stop was pressed, otherwise the answer or the apology. The page ends idle with the input empty and the placeholder hidden. The selected conversation and the font size are unchanged. |
| Chat.ChatPage.NewChat | django_app/config/static/js/chat.js:212-234 | A declined confirmation changes nothing. After confirming, the chat area is cleared and the placeholder shown. An OK response selects the returned id. A missing or empty id selects none. A failed response keeps the selection. |
| Chat.ChatPage.ShowPlaceholder | django_app/config/static/js/chat.js:20-26 | The placeholder is shown and the chat area emptied. |
| Chat.ChatPage.SelectConversation | django_app/config/static/js/chat.js:548-558 | `loadConversation` up to its `await`: the conversation becomes selected at once. |
| Chat.ChatPage.ShowConversation | django_app/config/static/js/chat.js:560-584 | When the request settles with an OK response, the chat area is exactly the loaded messages, in order, and the placeholder is hidden. Otherwise the area is unchanged. The selection is neither read nor changed. |
| Chat.ChatPage.LoadConversation | django_app/config/static/js/chat.js:548-585 | With the request settling before any other event, the conversation is selected and the area shows its messages in order. Without an OK response the area is unchanged. |
| Chat.LoadRace | django_app/config/static/js/chat.js:548-585 | Click A, then B, and A's reply arrives last: B stays selected while the area shows A's messages. |
| Chat.DeleteWhileLoading | django_app/config/static/js/chat.js:628-659 | Deleting a conversation while it loads clears the selection. Its messages still appear afterwards, with no conversation selected. |
| Chat.ChatPage.DeleteChat | django_app/config/static/js/chat.js:628-659 | After a confirmed delete that receives a response, the selection is cleared when the deleted conversation was selected, and the area is reset. In every other case nothing changes. |
| Chat.ChatPage.HandleFontSize | django_app/config/static/js/chat.js:239-243 | The font-size index advances to the next of the three levels. |
| Chat.GreetingScenario | django_app/config/static/js/chat.js:63-129 | Sending '안녕' makes the page sending. The answer '반가워요' then leaves exactly the two messages, and the page idle. |
| Chat.EnterKeyWhileSending | django_app/config/static/js/chat.js:401-406 | Enter pressed while a request is out starts a second one. When the first settles, the page reads idle although the second is still in flight. |
| MessageLog.FirstLoading | django_app/config/static/js/chat.js:188-193 | It returns the first position of the request's loading indicator, or the log's length when there is none. |
| MessageLog.RemoveLoading | django_app/config/static/js/chat.js:188-193 | `removeLoadingMessage(id)` removes the first indicator of the request, if any. Its properties are stated by `RemoveLoadingSpec`, `RemoveLoadingBehind` and `RemoveLoadingKeepsUnique`. |
| MessageLog.RemoveLoadingSpec | django_app/config/static/js/chat.js:188-193 | Removing a loading indicator that is absent leaves the log unchanged. Otherwise exactly its first occurrence is removed and the rest keep their order. |
| MessageLog.RemoveLoadingBehind | django_app/config/static/js/chat.js:188-193 | Removing an indicator that is not among the earlier entries leaves those entries in place. |
| MessageLog.RemoveLoadingKeepsUnique | django_app/config/static/js/chat.js:188-193 | Removing a request's indicator removes every trace of it, adds nothing, and keeps the other indicators unique. |
| MessageLog.AppendRequestKeepsUnique | django_app/config/static/js/chat.js:167-186 | A new request's indicator does not share its id with any indicator already shown. |
| MessageLog.StartKeepsRequestsValid | django_app/config/static/js/chat.js:79-89 | Starting a request keeps the bookkeeping valid: ids below the counter, every indicator pending, no two alike. |
| MessageLog.SettleKeepsRequestsValid | django_app/config/static/js/chat.js:109-121 | Settling a request keeps the bookkeeping valid. |
| FontSize.Next | django_app/config/static/js/chat.js:239-243 | The next index is always below 3. It is one more, wrapping from the last level to the first. |
| FontSize.PressesAdvance | django_app/config/static/js/main.js:164-168 | From a valid index, k presses land on (i + k) mod 3. |
| JsText.TrimEmptyIff | django_app/config/static/js/chat.js:66-68 | An input trims to '' exactly when it consists of white space only. |
| JsText.Trim | django_app/config/static/js/chat.js:66 | `s.trim()`. It is equal to the generic strip with JavaScript white space (`TrimIsStrip`), and its shape, emptiness and idempotence are stated by the lemmas beside it. |
| JsText.TrimShape | django_app/config/static/js/chat.js:66 | The trimmed text is a contiguous part of the input, without white space at either end. |
| JsText.TrimIdempotent | django_app/config/static/js/chat.js:66 | Trimming twice is trimming once. |
| JsText.TrimUnpadded | django_app/config/static/js/chat.js:66 | A string without white space at either end is its own trim. |
| JsText.TrimIsStrip | django_app/config/static/js/chat.js:66 | `trim()` strips JavaScript white space from both ends. |
| MainPage.MainChat.SendMessage | django_app/config/static/js/main.js:19-33 | If the input trims to '', only the input may differ. Otherwise the button is disabled, the trimmed message and a loading indicator are appended, the input is cleared and the request is in flight. It does not consult the disabled flag. |
| MainPage.MainChat.constructor | django_app/config/static/js/main.js:164-165 | The page starts with the send button enabled, no request, an empty chat area and input, and the first font size. The single-flight invariant holds. |
| MainPage.MainChat.Settle | django_app/config/static/js/main.js:35-64 | It removes the indicator and appends exactly one bot message: the answer, or the apology for a bad status and for any other error. The button is enabled again. It preserves the single-flight invariant. |
| MainPage.MainChat.ClickSendButton | django_app/config/static/js/main.js:27-63 | The click handler is in the page markup. The button is disabled at main.js:27 and enabled again at main.js:60-63, and a disabled button ignores the click. An enabled one has the effect of `sendMessage`. It preserves the single-flight invariant. |
| MainPage.MainChat.KeyDown | django_app/config/static/js/main.js:323-328 | Enter without Shift has the effect of `sendMessage`, even while the button is disabled. Any other key changes nothing. |
| MainPage.MainChat.HandleFontSize | django_app/config/static/js/main.js:164-168 | The font-size index advances to the next of the three levels. |
| MainPage.MainChat.HandleNewChat | django_app/config/static/js/main.js:143-160 | A declined confirm leaves the chat area alone. A confirmed one leaves only the greeting in it, which also drops a pending request's loading indicator. |
| MainPage.EnterKeyWhileDisabled | django_app/config/static/js/main.js:323-328 | Enter starts a second request while the button is disabled. When the first settles, the button is enabled while the second is still out. |
| MainPage.NewChatWhileSending | django_app/config/static/js/main.js:143-160 | A new chat started while a request is out does not cancel it: the answer is shown right after the greeting and the button is enabled again. |
| MainPage.FirstNoLimit | django_app/config/static/js/main.js:441 | It returns the index of the first button whose trimmed caption is '제한없음', or the group's size when there is none. |
| MainPage.TagClick | django_app/config/static/js/main.js:427-454 | The flags after a click on button k. Clicking '제한없음' leaves it alone active. Any other click clears the first '제한없음', flips the clicked button, and brings that '제한없음' back when nothing is active. Stated by `ClickNoLimit`, `ClickOrdinary`, `ClickNeverEmpty` and `ClickKeepsExclusive`; `TagGroup.Click` is proved against it. |
| MainPage.ClickNoLimit | django_app/config/static/js/main.js:434-438 | After a click on '제한없음', it is the only active button of its group. |
| MainPage.ClickOrdinary | django_app/config/static/js/main.js:439-452 | An ordinary click flips the clicked button, and every button other than the first '제한없음' keeps its state. That '제한없음' ends active exactly when no other button is. |
| MainPage.ClickNeverEmpty | django_app/config/static/js/main.js:448-452 | A group with a '제한없음' button never ends a click with no button active. |
| MainPage.ResetFlags | django_app/config/static/js/main.js:470-479 | After the reset, a button is active exactly when its trimmed caption is '제한없음'. |
| MainPage.ResetExclusive | django_app/config/static/js/main.js:470-479 | In a group with one '제한없음', after the reset an active '제한없음' is the only active button. |
| MainPage.ClickKeepsExclusive | django_app/config/static/js/main.js:426-455 | In a group with one '제한없음', every click keeps an active '제한없음' the only active button. |
| MainPage.TagGroup.Click | django_app/config/static/js/main.js:427-454 | The group's flags after the handler are the tag-click rule applied to the flags before it. |
| MainPage.TagGroup.constructor | django_app/config/static/js/main.js:422-426 | A group holds one flag per button caption, with the flags the page's markup gives it. |
| MainPage.TagGroup.Reset | django_app/config/static/js/main.js:471-478 | The group's flags become the reset flags. |
| MainPage.ResetFilters | django_app/config/static/js/main.js:470-479 | Every tag group of the panel has exactly its '제한없음' buttons active. |
| Buttons.CountTrueZeroIff | django_app/config/static/js/main.js:448-451 | No button counts as active exactly when every flag is off. |
| Buttons.CountTrueOneHot | django_app/config/static/js/search.js:56-64 | A one-hot group with its index in range counts exactly one active button. |
| Buttons.OneHot | django_app/config/static/js/search.js:56-64 | Exactly the button at the given index is active. |
| Search.Row.Click | django_app/config/static/js/search.js:56-64 | After a click, exactly the clicked button of the row is active. |
| Search.Row.Reset | django_app/config/static/js/search.js:194-203 | After the reset, only the row's first button is active. |
| Search.Row.constructor | django_app/config/static/js/search.js:48-53 | A row holds one flag per button caption, with the given flags. |
| Search.ActiveTexts | django_app/config/static/js/search.js:107-109 | It returns one trimmed caption per active button. |
| Search.ActiveIndices | django_app/config/static/js/search.js:107 | It returns the indices of exactly the active buttons, in increasing order. |
| Search.ActiveTextsLists | django_app/config/static/js/search.js:107-109 | The list sent is the trimmed caption of each active button, in document order. |
| Search.ActiveTextsSnoc | django_app/config/static/js/search.js:107-109 | Adding a button at the end of a row adds its trimmed caption at the end of the list exactly when it is active. |
| Search.ActiveTextsOneHot | django_app/config/static/js/search.js:106-124 | A row with exactly button k active sends exactly k's trimmed caption. |
| Search.NoneActive | django_app/config/static/js/search.js:106-124 | A row with no active button sends an empty list. |
| Search.DisplayText | django_app/config/static/js/search.js:312 | The text starts with the province name. For '전체' it is the name alone. For any other district the name is followed by a space and the district. |
| Search.SpliceInRange | django_app/config/static/js/search.js:348-351 | For a valid index, exactly that element is removed and the rest keep their order. |
| Search.SpliceOutOfRange | django_app/config/static/js/search.js:348-351 | An index at or past the end removes nothing. A negative index counts from the end. |
| Search.SpliceKeeps | django_app/config/static/js/search.js:348-351 | Removing an element keeps the selection duplicate-free and its display texts right. |
| Search.Splice | django_app/config/static/js/search.js:348-351 | `tags.splice(index, 1)` with JavaScript's index rules. Stated by `SpliceInRange`, `SpliceOutOfRange` and `SpliceKeeps`. |
| Search.Summary | django_app/config/static/js/search.js:376-384 | The region field's text: '선택하세요.', the one region's text, or the first region's text with the count of the others. Stated by `SummaryCountsOthers`; `ApplyRegionSelection` shows it. |
| Search.SearchRegion | django_app/config/static/js/search.js:88-91 | The first selected region's province code, or ''. Stated by `SearchRegionFirstOnly`. |
| Search.SummaryCountsOthers | django_app/config/static/js/search.js:381-383 | With two or more regions, the summary is the first region's text, then ' 외 ', then the decimal count of the others, then '곳'. |
| Search.SearchRegionFirstOnly | django_app/config/static/js/search.js:88-91 | The search region is the first selected region's province code. Regions selected later do not change it. |
| Search.RegionPicker.constructor | django_app/config/static/js/search.js:266-267 | The picker starts with no region selected, no province current, and the region field showing '선택하세요.'. |
| Search.RegionPicker.SelectProvinceClick | django_app/config/static/js/search.js:285-307 | The province becomes current and titles the district column. The column lists the province's districts, or stays as it was for a code `regionData` lacks. |
| Search.RegionPicker.SelectDistrictClick | django_app/config/static/js/search.js:310-329 | The region is appended exactly when no selected region has the same province and district, and the list is unchanged otherwise. Either way the region is selected afterwards and the list stays duplicate-free. |
| Search.RegionPicker.RemoveSelectedRegionTag | django_app/config/static/js/search.js:348-351 | The list becomes its `splice(index, 1)` and stays duplicate-free. |
| Search.RegionPicker.ResetRegionSelection | django_app/config/static/js/search.js:354-370 | No region is selected and no province is current. The district column is titled '전체' and is empty. |
| Search.RegionPicker.ApplyRegionSelection | django_app/config/static/js/search.js:373-386 | The region field shows '선택하세요.' for no region, the region's text for one, and the first region's text followed by the count of the others for more. |
| Search.ExecuteSearch | django_app/config/static/js/search.js:80-139 | The request carries the trimmed query and the first region's province code ('' for none). It carries the marital status, age and income fields as read, and the trimmed captions of the active buttons of rows 3 to 6. A page with fewer than six rows sends nothing. |
| Search.ResetFilters | django_app/config/static/js/search.js:176-219 | Every row has only its first button active. No region is selected, no province is current, the region field shows '선택하세요.' and the district column is reset. |
| Search.ResetRowDoesNotFilter | django_app/config/static/js/search.js:194-203 | A reset row whose first button is '제한없음', or an empty row, sends a list the server does not filter by. |
| Search.FirstRegionDecides | django_app/config/static/js/search.js:88-91 | An empty selection passes the region filter for every policy. Any other selection passes it exactly for the policies whose region contains the name of the first region's province, whatever the district and the regions after it; for a Seoul region that name is '서울'. |
| PyText.ParseIntOfNatToString | django_app/config/chat/views.py:196 | `int()` parses a decimal numeral back to its value. |
| PyText.ParseIntOfNegative | django_app/config/chat/views.py:196 | `int()` gives the negated value for a numeral with a leading minus sign. |
| PyText.ParseIntOfBlank | django_app/config/chat/views.py:194-203 | A string of white space only is not an integer. |
| PyText.ParseInt | django_app/config/chat/views.py:196 | `int(s)`: an optional sign and a digit group with single underscores, between white space. None where Python raises `ValueError`. Stated by `ParseIntOfNatToString`, `ParseIntOfNegative` and `ParseIntOfBlank`. |
| Views.QOr | django_app/config/chat/views.py:207-209 | `a \| b` with an empty `Q()` operand is the other operand. Otherwise it keeps what either operand keeps. |
| Views.QAnd | django_app/config/chat/views.py:198-201 | `a & b` keeps exactly what both operands keep. |
| Views.Eval | django_app/config/chat/views.py:167-171 | Which policies a `Q` keeps. A lookup compares with SQL semantics (NULL fails every comparison but `isnull`). `Q()` keeps everything. `\|` and `&` are disjunction and conjunction. |
| Views.Filter | django_app/config/chat/views.py:167-171 | Filtering never yields more policies than it is given. |
| Views.FilterAppend | django_app/config/chat/views.py:161-231 | Filtering a concatenation filters each part, in order. |
| Views.RegionName | django_app/config/chat/views.py:177-182 | The nine mapped codes translate to their Korean names. Any other code is used as it is. |
| Views.Select | django_app/config/chat/views.py:161-231 | The policies passing the first k criteria are never more than those given. |
| Views.PassesAllIffMatches | django_app/config/chat/views.py:166-231 | Passing all eight filters is meeting every criterion. |
| Views.SelectNone | django_app/config/chat/views.py:161 | Before any filter, every policy is kept. |
| Views.SelectAppend | django_app/config/chat/views.py:161-231 | The criteria select from a concatenation part by part, in order. |
| Views.FilterStage | django_app/config/chat/views.py:161-231 | Filtering the policies that passed k criteria with a `Q` expressing criterion k yields those passing k + 1. |
| Views.SkipStage | django_app/config/chat/views.py:161-231 | A skipped filter is a criterion every policy meets. |
| Views.MatchingIff | django_app/config/chat/views.py:161-231 | A policy is in the result set exactly when it is stored and meets every criterion. |
| Views.Matching | django_app/config/chat/views.py:161-231 | The reference for the search: the stored policies that pass all eight criteria. Stated by `MatchingIff` and `MatchingAppend`; `SearchPolicy` is proved against it. |
| Views.MatchingAppend | django_app/config/chat/views.py:161-231 | Taking the table in the model's fixed order, the result for a concatenation is the concatenation of the results. |
| Views.OpenRequestKeepsAll | django_app/config/chat/views.py:166-231 | A request naming no criterion, or whose tag lists hold '제한없음', keeps every policy in order. |
| Views.UnrestrictedMaritalStatus | django_app/config/chat/views.py:186-191 | A policy marked '제한없음' is found for 'single' and for 'married'. |
| Views.AgeOkOfNumeral | django_app/config/chat/views.py:194-203 | For a numeric age, a policy is kept exactly when each bound is NULL, 0, or on the right side of the age. |
| Views.NoLimitTagBypasses | django_app/config/chat/views.py:206-231 | A tag list holding '제한없음' filters nothing, whatever else it holds. |
| Views.QueryStage | django_app/config/chat/views.py:166-171 | The query filter keeps exactly the policies meeting criterion 1: no query, or the query in title, description or keywords. |
| Views.RegionStage | django_app/config/chat/views.py:175-183 | The region filter keeps exactly the policies meeting criterion 2: the region column contains the mapped name. |
| Views.MaritalStage | django_app/config/chat/views.py:186-191 | The marital filter keeps exactly the policies meeting criterion 3. 'single' needs '미혼' or '제한없음', 'married' needs '기혼' or '제한없음', and other values do not filter. |
| Views.AgeStage | django_app/config/chat/views.py:194-203 | The age filter keeps exactly the policies meeting criterion 4. An age `int()` rejects does not filter. |
| Views.AnyContains | django_app/config/chat/views.py:207-209 | The accumulated `Q` is empty for no tags. Otherwise it keeps a policy exactly when its column contains one of the tags. |
| Views.TagStage | django_app/config/chat/views.py:206-231 | Each tag filter keeps exactly the policies meeting its criterion. A list that is not a list, is empty, or holds '제한없음' does not filter. |
| Views.Summarize | django_app/config/chat/views.py:236-243 | A result copies id, title, region, period and URL. Its description is the first 100 characters of a non-empty description followed by '...', or '' for an empty one. |
| Views.SummarizeAll | django_app/config/chat/views.py:234-243 | It returns one summary per policy shown, in order. |
| Views.SearchPolicy | django_app/config/chat/views.py:131-248 | The results are the summaries of the first 50 matching policies, in the model's fixed order of the table. `count` is their number, which is the smaller of 50 and the number of matches. |
| Views.OfUser | django_app/config/chat/views.py:55-56 | Every question kept is a stored question of the user. |
| Views.Reverse | django_app/config/chat/views.py:61 | It returns the same elements in the opposite order. |
| Views.Latest | django_app/config/chat/views.py:57 | It returns min(n, length) elements. |
| Views.NewestFirst | django_app/config/chat/views.py:54-58 | The user's questions, newest first, cut to `limit`. `ReverseNewest` relates it to `Latest`. |
| Views.Answered | django_app/config/chat/views.py:61-69 | There are never more conversations than questions. |
| Views.AnsweredAppend | django_app/config/chat/views.py:61-69 | The answered questions of a concatenation are those of each part, in order. |
| Views.ReverseNewest | django_app/config/chat/views.py:54-61 | Walking the `limit` newest questions in reverse gives the `limit` latest, oldest first. |
| Views.GetRecentConversations | django_app/config/chat/views.py:50-71 | The result is the answered questions among the user's `limit` latest, oldest first. |
| Views.RecentCount | django_app/config/chat/views.py:50-71 | At most `limit` conversations come back. When every question was answered, exactly min(limit, number of questions). |
| Views.AllAnsweredCount | django_app/config/chat/views.py:61-69 | With every question answered, none is skipped. |
| Views.HistoryAppend | django_app/config/chat/views.py:103-105 | The history of a concatenation is the concatenated histories. |
| Views.Prompt | django_app/config/chat/views.py:102-107 | The history of the conversations, then "Q: " + content + "\nA:". Stated by `PromptShape`; `BuildPrompt` is proved against it. |
| Views.BuildPrompt | django_app/config/chat/views.py:102-107 | The prompt is "Q: q\nA: a\n\n" for each previous conversation in order, then "Q: " + content + "\nA:". |
| Views.PromptShape | django_app/config/chat/views.py:102-107 | The prompt begins with the history and ends with the new question awaiting its answer. |
| Views.AskQuestion | django_app/config/chat/views.py:89-127 | A missing or empty question gives status 400 with '질문이 없습니다.' and stores nothing. Otherwise the pipeline gets the prompt built from the answered ones among the user's three latest questions. The question and its answer are returned and stored, after the answer. |
| Views.AskedIsRemembered | django_app/config/chat/views.py:98-122 | An answered question is the last conversation in the user's next prompt. |

## Left out

- Rendering: the message HTML, `escapeHtml`, markdown, modals, the sidebar, scrolling,
  focus and CSS classes other than the send button's state. The chat area is a log of
  entries; buttons are `active` flags.
- `fetch` and `response.json()`: every response the code reacts to is a datatype parameter
  (`Reply`, `NewChatReply`, `LoadReply`, `DeleteReply`).
- A chat reply whose body has no `answer` field behaves as `Reply.Broken`.
  `marked.parse(undefined)` throws inside the `try` (chat.js:143, main.js:78), so the
  apology is shown.
- `ShowConversation` takes stored messages to have string contents. A bot message whose
  content is null makes `marked.parse` throw. That stops the `forEach` partway, leaving
  the area partly rendered, and the error is caught at chat.js:582.
- `addLoadingMessage` ids come from `Date.now()`, and two requests in the same millisecond
  would share one. The model hands out distinct ids from a counter.
- `window.confirm` is a boolean parameter of `NewChat` and `DeleteChat`.
- `handleSave`, `handleHelp`, `handleSettings`, `renameChat`, `loadChatHistory` and
  `renderChatList`'s HTML. These are downloads, dialogs and rendering. Only the title rule
  of `renderChatList` is modelled. The sidebar reload after a new chat is also left out.
- `autoFillUserInfo` and `executeSearch` in main.js: demo values and alerts.
- `setInputValue` in main.js. It only fills the input, so it has no behaviour beyond
  rendering.
- main.js `resetFilters` clearing the panel's inputs and selects. search.js `resetFilters`
  clearing the query, the checkbox, the selects and the number fields. These are DOM
  values; `Search.ExecuteSearch` takes them as parameters.
- After `executeSearch` posts, the response is shown in alerts. Only the request body is
  modelled.
- `selectProvinceClick` highlighting the clicked province. The model assumes the clicked
  province's element exists, as it does when the click comes from the list.
- Case-insensitive matching of `icontains` is modelled as plain substring containment.
- JavaScript string lengths count UTF-16 code units, Python's count code points, and the
  model counts characters. They differ only outside the Basic Multilingual Plane.
- `PyText.ParseInt`: Python's `int()` also accepts non-ASCII decimal digits, which the
  model rejects.
- `search_policy`'s fallback from a JSON body to form fields, and its status-500 reply
  for an exception. The model takes a well-formed request; non-list tag values are
  modelled (`NotTags`).
- `income_min`, `income_max` and `exclude_closed` are read by `search_policy` but never
  used. They are carried in the request and filter nothing.
- The ORM, sessions, `get_guest_user` and `SessionUser` creation. The user is a number
  and the tables are sequences. Questions created in the same instant are ordered by
  creation.
- `run_rag`, `serve_css`, `serve_search_css` and `urls.py`: an external pipeline, file
  serving and routing.
- The page's initial markup is not part of this model. `Chat.ChatPage` and
  `MainPage.MainChat` start with an empty chat area and input, and the chat page with its
  placeholder shown; the greeting the markup may hold is not modelled. `MainPage.TagGroup`
  and `Search.Row` take their initial `active` flags as parameters.
- Policy text columns are non-null strings. A NULL column (views.py:239 allows a NULL
  description) fails every `icontains` lookup, while the model's '' passes a lookup for
  the empty string.
- `PyText.ParseInt`: CPython's `int()` also raises `ValueError` for a numeral of more than
  4300 digits, a limit the model does not have.
- Without `order_by`, the database's row order is unspecified, so it is not fixed which
  50 policies come back. The model uses one fixed order for the table and for every
  filter of it.
