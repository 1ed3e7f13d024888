# Smart-Morning scripts, modelled in Dafny

Smart-Morning is a morning briefing. A Python script collects the newest items of Naver's economy RSS section, and two Node scripts talk to KakaoTalk:
- `scripts/get-kakao-token.js` runs a small local authorization server. It turns the OAuth code into tokens and rewrites the project's `.env` file with them.
- `scripts/send-kakao.js` sends one text message to the user's own KakaoTalk chat.

This project models the deterministic logic inside those scripts and proves what it promises:
- the `.env` rewrite: two regex deletions, a collapse of blank runs, three appends, and a trim plus final line feed;
- the `/callback` handler around the rewrite, the start-up key check and the authorization URL;
- message truncation, result classification, message-source selection and the exit status of the sender;
- the news collector: slicing, field extraction, `re.sub('<[^<]+?>', '', …)`, `strip()`, the result envelope, and `main`'s limit parsing with its exit status.

Everything outside the process is an input of the model: the network, the file system, the environment, standard input and the clock. Strings are sequences of Dafny characters, i.e. Unicode scalar values.

Modules, one per concern:
- `wrappers.dfy`: `Option` and `Result`.
- `substrings.dfy`: counting occurrences of a pattern, and how counts combine over concatenations.
- `js_text.dfy`: ECMAScript line terminators and `String.prototype.trim`.
- `token_store.dfy`: the `.env` rewrite (`UpdateEnvContent`, specified by `Rewrite`) and its properties.
- `http.dfy`: JavaScript values, truthiness, axios failures and `error.response?.data || error.message`.
- `token_server.dfy`: the authorization server of `get-kakao-token.js`.
- `kakao_sender.dfy`: `send-kakao.js`.
- `py_text.dfy`: Python's `str.strip()`, the lazy tag pattern, and `int()` of a string.
- `naver_news.dfy`: `fetch-naver-news.py`.

The code is imperative where the scripts reassign variables or fill lists in loops:
- `TokenStore.UpdateEnvContent` follows `envContent`'s reassignments.
- `KakaoSender.SendKakaoMessage` follows the conditional reassignment of `truncatedMessage`.
- `KakaoSender.Run` fills `chunks` in a loop.
- `NaverNews.FetchNaverEconomyNews` appends to `articles` in a loop.
- `NaverNews.Run` reassigns `limit`.

Each of these methods is proved against a specification function, and that function's properties are lemmas.

## Model

| member | source | states |
|---|---|---|
| TokenStore.UpdateEnvContent | scripts/get-kakao-token.js:106-123 | The text written back equals `Rewrite` of the old content (the empty string when the file is missing), the timestamp and the two tokens. |
| TokenStore.SkipToLineEnd | scripts/get-kakao-token.js:114-115 | What `.*` consumes: the skipped part holds no line terminator, and the rest is empty or starts with one. |
| TokenStore.RemoveEntries | scripts/get-kakao-token.js:114-115 | `replace(/KEY.*/g, '')`, scanning from the left: each leftmost occurrence of the key is deleted up to the line end. The `RemoveEntries` lemmas below state its properties. |
| TokenStore.RemoveEntriesClears | scripts/get-kakao-token.js:114-115 | After `replace(/KEY.*/g, '')` the key occurs nowhere in the text. |
| TokenStore.RemoveEntriesNoNew | scripts/get-kakao-token.js:114-115 | Deleting the entries of one key never creates an occurrence of another key. |
| TokenStore.RemoveEntriesIdentity | scripts/get-kakao-token.js:114-115 | A text without the key is left unchanged by the replace. |
| TokenStore.RemoveEntriesSplit | scripts/get-kakao-token.js:114-115 | The replace works line by line: the parts on either side of a line feed are processed independently, and the line feed stays. |
| TokenStore.RemoveEntryStopsAtTerminator | scripts/get-kakao-token.js:114-115 | An entry is deleted up to, but not including, the first line terminator of any kind. On a CRLF file the `\r` of a deleted entry stays behind. |
| TokenStore.EmbeddedKeyCut | scripts/get-kakao-token.js:114-115 | The pattern is not anchored: on a line whose text before the pattern lacks its first character, everything from the pattern to the line end is deleted. |
| TokenStore.UnrelatedKeyCut | scripts/get-kakao-token.js:114 | A concrete case: `OLD_KAKAO_ACCESS_TOKEN=x` is cut down to `OLD_`. |
| TokenStore.RemoveEntriesPrefix | scripts/get-kakao-token.js:114-115 | A prefix of the output that holds no line terminator is also a prefix of the input. |
| TokenStore.CollapseBlankRuns | scripts/get-kakao-token.js:116 | `replace(/\n\n+/g, '\n\n')`: each run of two or more line feeds becomes two. The `Collapse` lemmas below state its properties. |
| TokenStore.CollapseNoTriple | scripts/get-kakao-token.js:116 | After `replace(/\n\n+/g, '\n\n')` no three consecutive line feeds remain. |
| TokenStore.CollapseIdentity | scripts/get-kakao-token.js:116 | A text without three consecutive line feeds is left unchanged by the collapse. |
| TokenStore.CollapseCount | scripts/get-kakao-token.js:116 | The collapse neither creates nor destroys an occurrence of any pattern free of line feeds. |
| TokenStore.CollapseKeepsOtherCharacters | scripts/get-kakao-token.js:116 | The collapse removes only line feeds: every other character is kept, in order. |
| TokenStore.StripTokenEntries | scripts/get-kakao-token.js:114-116 | The two deletions, then the collapse. `TokenStore.StrippedHasNoKeys`, `TokenStore.StrippedHasNoTriple` and `TokenStore.StripTokenFree` state its properties. |
| TokenStore.StrippedHasNoKeys | scripts/get-kakao-token.js:114-116 | After the two deletions and the collapse, neither key occurs. |
| TokenStore.StrippedHasNoTriple | scripts/get-kakao-token.js:116 | The intermediate text after line 116 has no run of three line feeds. |
| TokenStore.StripTokenFree | scripts/get-kakao-token.js:114-116 | For content holding neither key, the deletions change nothing and only the collapse acts. |
| TokenStore.KeyFreeLineKept | scripts/get-kakao-token.js:114-115 | A line holding neither key survives both deletions unchanged and in its place, ahead of the rest. |
| TokenStore.CommentLine | scripts/get-kakao-token.js:119 | A line feed, `# Kakao Tokens (Generated: `, the timestamp and `)`. `TokenStore.RewriteAddsOneComment` states what it adds. |
| TokenStore.TokenBlock | scripts/get-kakao-token.js:119-121 | The comment line, then each key with its token on a line of its own. `TokenStore.RewriteEndsWithTokens` states the text it leaves at the file's end. |
| TokenStore.Rewrite | scripts/get-kakao-token.js:114-123 | The stripped old content, the token block appended, trimmed, and one line feed. The `Rewrite` lemmas below state its properties. |
| TokenStore.RewriteLayout | scripts/get-kakao-token.js:114-123 | The written file is the trimmed-at-start old content with the comment line, then the access entry, then the refresh entry without trailing whitespace, then one line feed. |
| TokenStore.RewriteShape | scripts/get-kakao-token.js:119-123 | The written file has no leading whitespace and ends in exactly one line feed. It ends with the comment line and both entries. |
| TokenStore.RewriteEndsWithTokens | scripts/get-kakao-token.js:119-123 | For a refresh token without trailing whitespace, the file ends with exactly `# Kakao Tokens (Generated: T)\nKAKAO_ACCESS_TOKEN=A\nKAKAO_REFRESH_TOKEN=R\n`. |
| TokenStore.RewriteKeysOnce | scripts/get-kakao-token.js:114-121 | For any previous content, including a file written earlier, each key occurs exactly once afterwards when neither key occurs in the timestamp or the tokens. |
| TokenStore.UnrelatedContentKept | scripts/get-kakao-token.js:114-123 | Content holding neither key, with no blank run of three line feeds and no leading whitespace, is kept verbatim, and the comment line and entries follow it. |
| TokenStore.TripleAfterBlankLine | scripts/get-kakao-token.js:116-123 | Content ending in a blank line gets three consecutive line feeds in the written file, because the appended block starts with a line feed after the collapse. |
| TokenStore.RewriteCanLeaveTriple | scripts/get-kakao-token.js:116-123 | A concrete case: rewriting `FOO=bar\n\n` yields a file containing three consecutive line feeds. |
| TokenStore.RewriteAddsOneComment | scripts/get-kakao-token.js:114-121 | The written file holds one more comment marker than the stripped old content. |
| TokenStore.StripOfRewrite | scripts/get-kakao-token.js:114-123 | Stripping a file this handler wrote removes exactly its two entry lines. What remains is the earlier file up to its comment line, then the line feeds that ended the removed lines. |
| TokenStore.CommentsSurviveRewrite | scripts/get-kakao-token.js:114-119 | Stripping a written file removes none of its comment markers. |
| TokenStore.CommentLinesAccumulate | scripts/get-kakao-token.js:114-123 | Earlier comment lines are not removed: rewriting a written file adds exactly one comment marker. |
| JsText.Trim | scripts/get-kakao-token.js:123 | `trim()`: the end trimmed, then the start. `JsText.TrimStart` and `JsText.TrimEnd` state what each half keeps. |
| JsText.TrimStart | scripts/get-kakao-token.js:123 | The result is a suffix of the input that does not start with whitespace. |
| JsText.TrimEnd | scripts/get-kakao-token.js:123 | The result is a prefix of the input that does not end with whitespace. |
| JsText.TrimStartRemovesWhitespace | scripts/get-kakao-token.js:123 | Only whitespace is removed from the front. |
| JsText.TrimEndRemovesWhitespace | scripts/get-kakao-token.js:123 | Only whitespace is removed from the back. |
| TokenServer.StartupExit | scripts/get-kakao-token.js:27-32 | The script stops with status 1 before serving exactly when `KAKAO_REST_API_KEY` is unset or empty. |
| TokenServer.AuthorizationUrl | scripts/get-kakao-token.js:38 | The URL is the fixed head, the key as it is, and the fixed tail with the redirect URI, without encoding. |
| TokenServer.KeyMissing | scripts/get-kakao-token.js:27 | `!REST_API_KEY`: the key is unset or empty. `TokenServer.StartupExit` states what follows from it. |
| TokenServer.TokenForm | scripts/get-kakao-token.js:90-95 | The form has four fields in order: `grant_type=authorization_code`, the client id, `redirect_uri=http://localhost:3000/callback` and the code. |
| TokenServer.CodeMissing | scripts/get-kakao-token.js:81 | `!code`: the query parameter is absent or empty. `TokenServer.HandleCallback` states what follows from it. |
| TokenServer.OldContent | scripts/get-kakao-token.js:106-111 | A readable `.env` yields its text; a missing one yields nothing, which the rewrite reads as the empty string. |
| TokenServer.HandleCallback | scripts/get-kakao-token.js:78-185 | A missing or empty code gives the not-found reply with no request, no write and no exit. Otherwise the form is posted to `https://kauth.kakao.com/oauth/token`. A rejected exchange, an unreadable `.env` or a failed write gives the failure detail, with nothing written and no exit. Otherwise the handler writes `Rewrite` of the old file, replies with the access token and schedules the exit. |
| Http.Truthy | scripts/send-kakao.js:84 | JavaScript truthiness of a response body: undefined, null, false, 0 and the empty string are falsy. `Http.Detail` states how `\|\|` uses it. |
| Http.IsUnauthorized | scripts/send-kakao.js:74 | `error.response?.status === 401`: an error response with status 401. `KakaoSender.Classify` states what follows from it. |
| Http.Detail | scripts/send-kakao.js:82-85 | `error.response?.data \|\| error.message`. The body is chosen exactly when a response exists and its body is truthy; otherwise the message is chosen. The result is truthy or the empty string. |
| KakaoSender.SuffixLength | scripts/send-kakao.js:43 | The suffix is 22 characters long. |
| KakaoSender.Truncate | scripts/send-kakao.js:38-44 | The text is never longer than 2000. It equals the message exactly when the message has at most 2000 characters. Otherwise it is the first 1950 characters followed by the suffix. |
| KakaoSender.TruncateKeepsPrefix | scripts/send-kakao.js:43 | A cut message is 1972 characters long and starts with the first 1950 of the original. |
| KakaoSender.TruncateIdempotent | scripts/send-kakao.js:41-44 | A sent text would not be cut again. |
| KakaoSender.Classify | scripts/send-kakao.js:67-85 | Success exactly when the POST answered, carrying its body. `TOKEN_EXPIRED` exactly for a 401. Any other failure carries the failure detail. |
| KakaoSender.ErrorField | scripts/send-kakao.js:75-85 | A successful result has no `error` field. An expired token has `error` set to `TOKEN_EXPIRED`. Any other failure has `error` set to its detail. |
| KakaoSender.ErrorFieldOfAnswer | scripts/send-kakao.js:67-85 | For the POST's answer: no `error` exactly after a response, `TOKEN_EXPIRED` for a 401, and otherwise `error.response?.data \|\| error.message`. |
| KakaoSender.ExitCode | scripts/send-kakao.js:123-139 | The status is 0 exactly for a success, and 1 otherwise. |
| KakaoSender.SendKakaoMessage | scripts/send-kakao.js:37-87 | The request goes to the send endpoint with `Bearer <token>`, a text template holding the truncated message and the fixed link twice. The result is the classification of the answer. |
| KakaoSender.ConcatAppend | scripts/send-kakao.js:108-112 | Concatenating the chunks is piecewise: however the stream is split, it gives the same message. |
| KakaoSender.Concat | scripts/send-kakao.js:108-112 | The chunks joined in the order they arrived. `KakaoSender.ConcatAppend` and `KakaoSender.ConcatAt` state its properties. |
| KakaoSender.ConcatAt | scripts/send-kakao.js:108-112 | Every chunk appears whole in the message, between the chunks before it and the chunks after it. |
| KakaoSender.TokenMissing | scripts/send-kakao.js:25 | `!ACCESS_TOKEN`: the token is unset or empty. `KakaoSender.Run` states what follows from it. |
| KakaoSender.PathGiven | scripts/send-kakao.js:96 | `process.argv[2]` is truthy: present and not empty. `KakaoSender.Run` states what follows from it. |
| KakaoSender.DefaultMessage | scripts/send-kakao.js:116 | The fixed test text followed by the localised time. `KakaoSender.Run` sends it when no path is given and standard input is a terminal. |
| KakaoSender.Run | scripts/send-kakao.js:25-146 | A missing token gives exit 1 and no send; otherwise the message source follows the priority below. The status is 0 exactly when the result is a success, and 1 otherwise. |
| PyText.PyStrip | scripts/fetch-naver-news.py:46-49 | `strip()`: the right strip, then the left strip. The lemmas below state its properties. |
| PyText.LStrip | scripts/fetch-naver-news.py:46-49 | The result is a suffix of the input that does not start with Python whitespace. |
| PyText.RStrip | scripts/fetch-naver-news.py:46-49 | The result is a prefix of the input that does not end with Python whitespace. |
| PyText.LStripRemovesSpace | scripts/fetch-naver-news.py:46-49 | Only whitespace is removed from the front. |
| PyText.RStripRemovesSpace | scripts/fetch-naver-news.py:46-49 | Only whitespace is removed from the back. |
| PyText.PyStripClean | scripts/fetch-naver-news.py:46-49 | The result of `strip()` has no whitespace at either end. |
| PyText.PyStripIdempotent | scripts/fetch-naver-news.py:46-49 | Stripping twice is stripping once. |
| PyText.PyStripOfClean | scripts/fetch-naver-news.py:46-49 | A string with a non-space at both ends is its own `strip()`. |
| PyText.StripTags | scripts/fetch-naver-news.py:43 | `re.sub('<[^<]+?>', '', s)`: scans from the left, deleting each leftmost match and resuming after it. `PyText.TagMatch`, `PyText.TagMatchFindsTag` and the lemmas below state its properties. |
| PyText.TagEnd | scripts/fetch-naver-news.py:43 | The lazy scan finds the first `>` after the run, or reports that no tag starts here. |
| PyText.TagMatch | scripts/fetch-naver-news.py:43 | A match at the start is a tag: `<`, a non-empty run without `<`, and the first `>` after it. No match means no prefix is a tag. |
| PyText.TagUnique | scripts/fetch-naver-news.py:43 | No tag is a proper prefix of another, so a match has one length only. |
| PyText.TagMatchFindsTag | scripts/fetch-naver-news.py:43 | Whenever a prefix is a tag, the scan matches exactly that prefix. |
| PyText.StripTagsWithoutAngle | scripts/fetch-naver-news.py:43 | A description containing no `<` is left unchanged. |
| PyText.StripTagsShorter | scripts/fetch-naver-news.py:43 | Removing tags never makes the text longer. |
| PyText.StripTagsNotIdempotent | scripts/fetch-naver-news.py:43 | `<a<b>c>` becomes `<ac>`, which becomes empty when stripped again, so tag removal is not idempotent and the output may still hold a tag. |
| PyText.ParseInt | scripts/fetch-naver-news.py:76 | `int(s)` in base 10: surrounding whitespace, an optional sign, ASCII digits with single underscores between them, and at most 4300 digits. Anything else raises. |
| PyText.ParseIntOfString | scripts/fetch-naver-news.py:76 | `int(str(n)) == n` for every integer that `str()` can write, i.e. with at most 4300 digits. |
| PyText.ParseRejectsLong | scripts/fetch-naver-news.py:76-77 | More than 4300 digits make `int()` raise ValueError. |
| PyText.ParseIntIgnoresSpace | scripts/fetch-naver-news.py:76 | Whitespace around the argument does not change what `int()` reads. |
| PyText.NatToStringDigits | scripts/fetch-naver-news.py:76 | The decimal form of a natural number is a valid digit string that spells that number. |
| NaverNews.SliceTo | scripts/fetch-naver-news.py:35 | `items[:limit]` is a prefix of the items. A non-negative limit keeps `min(limit, n)` items; a negative one drops the last \|limit\| items. |
| NaverNews.ChildText | scripts/fetch-naver-news.py:36-39 | A missing child reads as `""`; a present child reads as its text, which may be None. |
| NaverNews.ShapeItem | scripts/fetch-naver-news.py:36-50 | An item becomes an article exactly when none of its four texts is None. A None description fails first, at the tag removal. |
| NaverNews.ArticleFieldsStripped | scripts/fetch-naver-news.py:45-50 | All four fields of an article have no whitespace at either end. |
| NaverNews.MissingChildrenEmpty | scripts/fetch-naver-news.py:36-39 | A missing child element gives an empty field. |
| NaverNews.PlainDescriptionKept | scripts/fetch-naver-news.py:43-48 | A description without `<` loses only its surrounding whitespace. |
| NaverNews.Collect | scripts/fetch-naver-news.py:35-50 | The articles in order until the first failure, which ends the loop. `NaverNews.CollectInOrder` and `NaverNews.CollectFails` state its properties. |
| NaverNews.ShapeItems | scripts/fetch-naver-news.py:35-50 | The loop over the selected items: `Collect` of each item shaped. `NaverNews.ShapeItemsInOrder` and `NaverNews.ShapeItemsFails` state its properties. |
| NaverNews.ShapeItemsInOrder | scripts/fetch-naver-news.py:35-50 | On success there is one article per selected item, each shaped from that item, in document order. |
| NaverNews.ShapeItemsFails | scripts/fetch-naver-news.py:35-50 | The loop fails exactly when some selected item cannot be shaped. |
| NaverNews.FailureEndsCollect | scripts/fetch-naver-news.py:35-50 | Once an item has failed, the items after it change nothing. |
| NaverNews.FetchNaverEconomyNews | scripts/fetch-naver-news.py:22-68 | An unavailable feed gives the failure envelope. Otherwise the result is the success envelope when every selected item is shaped, with `count` equal to the number of articles and the articles in order. Failing that, it is the failure envelope of the first failing item. |
| NaverNews.SuccessCount | scripts/fetch-naver-news.py:35-57 | A success never reports more articles than the feed has, nor, for a non-negative limit, more than the limit. For a negative limit the count is the number of items minus \|limit\|, floored at zero. |
| NaverNews.LimitFromArgs | scripts/fetch-naver-news.py:73-78 | The limit is 10 without an argument, 10 when `int()` rejects the argument, and otherwise the parsed number. |
| NaverNews.LimitFromDecimal | scripts/fetch-naver-news.py:73-78 | An argument written as a decimal integer of at most 4300 digits is taken as the limit. |
| NaverNews.LimitFromLongArgument | scripts/fetch-naver-news.py:73-78 | An argument of more than 4300 digits is refused by `int()`, and the limit stays 10. |
| NaverNews.Run | scripts/fetch-naver-news.py:70-88 | The status is 0 exactly for a success envelope and 1 for every failure, with the envelope computed from the parsed limit. |

The message source of `KakaoSender.Run` is chosen in this order:
1. A non-empty argument names the file; a missing or unreadable file means exit 1, with no send.
2. Otherwise, piped standard input gives its chunks, concatenated in order.
3. Otherwise, a terminal gives the default text.

The sent text is the truncation of the chosen message.

## Behaviour worth knowing

- The deletion patterns are not anchored to the start of a line. So a line such as `OLD_KAKAO_ACCESS_TOKEN=x` is cut down to `OLD_`. `TokenStore.EmbeddedKeyCut` and `TokenStore.UnrelatedKeyCut` state this. Lines containing neither key are kept (`TokenStore.KeyFreeLineKept`, `TokenStore.UnrelatedContentKept`).
- Blank-line runs are collapsed before the block is appended, and the block starts with a line feed. So a file ending in a blank line gets two blank lines before the comment line (`TokenStore.TripleAfterBlankLine`, `TokenStore.RewriteCanLeaveTriple`).
- An empty `code` parameter counts as missing, like an absent one (`TokenServer.CodeMissing`).
- In the news collector, a present element with no text (`None`) fails at the tag removal when it is the description, and at its own `strip()` otherwise. The failures are checked in the order the code meets them: description, title, link, pubDate.
- `int()` and `str()` of numbers with more than 4300 decimal digits raise ValueError, which is the default limit of CPython 3.11 and later. So a longer limit argument is refused, and the default limit of 10 is used (`NaverNews.LimitFromLongArgument`).

## Left out

- The network is not modelled: Express routing and listening, the axios POSTs and `urlopen`. Only their outcomes enter the model: a body, an error status with a body, or an error without a response.
- The file system is not modelled: dotenv loading, `existsSync`, `readFileSync` and `writeFileSync` are replaced by an optional old content, a map from paths to readable or unreadable files, and the written text as a result. A `.env` that cannot be read and a write that throws are modelled only by their error message. `TokenServer.HandleCallback` stands for the written file by the text it would write, and a failed write by nothing written, so a partly written file is not modelled.
- XML parsing with ElementTree and `findall('.//item')` is not modelled; the feed is given as its list of items with optional child texts.
- The HTML pages, the console output, the warning on standard error and `json.dumps`/`JSON.stringify` are presentation only and not modelled.
- The tokens printed with `expires_in / 3600` and the 5-second delay before `process.exit(0)` are not modelled; the callback only records that the exit is scheduled.
- Clocks and locale formatting (`toISOString`, `toLocaleString('ko-KR')`, `datetime.now().isoformat()`) are opaque string parameters.
- `str(e)` of a Python exception is not modelled as text; `NaverNews.Fault` records which failure happened.
- The `message` field beside `TOKEN_EXPIRED` is kept as the constant `KakaoSender.ExpiredMessage`, not as a field of the result.
- A failure whose detail is itself the string `TOKEN_EXPIRED` prints the same guidance as an expired token; only the console text differs, so this is not modelled.
- A token response without `access_token` or `refresh_token` would write the text `undefined`; the model assumes both are strings.
- `URLSearchParams` encoding of the token form is not modelled; the form is given as its list of fields.
- KakaoSender.Truncate: counts Dafny characters (Unicode scalar values), while JavaScript counts UTF-16 code units. For text outside the Basic Multilingual Plane the cut point and the limit differ, and a cut surrogate pair is not modelled.
- KakaoSender.Concat: the chunks are taken as already decoded strings. UTF-8 decoding of the bytes, including a character split across chunks, is not modelled.
- PyText.ParseInt: accepts ASCII digits only. Python's `int()` also accepts other Unicode decimal digits.
- Http.Truthy: numbers are integers, so NaN is not modelled.
