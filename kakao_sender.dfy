/**
 * scripts/send-kakao.js: send one text message to the user's own KakaoTalk
 * chat. The message comes from a file named on the command line, from piped
 * standard input or from a default text; it is cut to the length KakaoTalk
 * accepts, posted, and the outcome decides the exit status. The environment,
 * the file system, standard input, the clock and the HTTP answer are inputs.
 */
module KakaoSender {
  import opened Wrappers
  import opened Http

  const MaxLength := 2000
  /** What replaces the cut-off end of a long message. */
  const Suffix := "\n\n... (내용이 길어 생략되었습니다)"
  const SendEndpoint := "https://kapi.kakao.com/v2/api/talk/memo/default/send"
  /** The page both links of the template open. */
  const LinkUrl := "https://news.naver.com/main/main.naver?mode=LSD&mid=shm&sid1=101"

  lemma SuffixLength()
    ensures |Suffix| == 22
  {
  }

  /**
   * Lines 38-44: short messages go out as they are; longer ones keep their
   * first 1950 characters and get the suffix, which keeps them under the cap.
   */
  function Truncate(message: string): (text: string)
    ensures |text| <= MaxLength
    ensures text == message <==> |message| <= MaxLength
    ensures |message| > MaxLength ==> text == message[..MaxLength - 50] + Suffix
  {
    SuffixLength();
    if |message| > MaxLength then message[..MaxLength - 50] + Suffix else message
  }

  /** A message that was cut starts with exactly what was kept of the original. */
  lemma TruncateKeepsPrefix(message: string)
    ensures var text := Truncate(message);
      |message| > MaxLength ==> |text| == MaxLength - 50 + 22 && text[..MaxLength - 50] == message[..MaxLength - 50]
  {
    SuffixLength();
  }

  /** Cutting is done once: the text sent is never cut again. */
  lemma TruncateIdempotent(message: string)
    ensures Truncate(Truncate(message)) == Truncate(message)
  {
  }

  /** The `template_object` of lines 50-57. */
  datatype Template = Template(objectType: string, text: string, webUrl: string, mobileWebUrl: string)

  datatype SendRequest = SendRequest(url: string, authorization: string, template: Template)

  /** How the POST ended: a response body, or the error axios threw. */
  datatype Delivery = Delivered(data: Value) | Threw(failure: Failure)

  /** The object `sendKakaoMessage` resolves to. */
  datatype SendResult = Sent(data: Value) | Expired | Failed(error: Value)

  const ExpiredError := "TOKEN_EXPIRED"
  const ExpiredMessage := "Access Token이 만료되었습니다. get-kakao-token.js를 다시 실행하세요."

  /** Lines 67-85: success carries the body, 401 means an expired token, anything else the failure detail. */
  function Classify(d: Delivery): (r: SendResult)
    ensures r.Sent? <==> d.Delivered?
    ensures d.Delivered? ==> r == Sent(d.data)
    ensures r.Expired? <==> d.Threw? && IsUnauthorized(d.failure)
    ensures r.Failed? ==> d.Threw? && !IsUnauthorized(d.failure) && r.error == Detail(d.failure)
  {
    match d
    case Delivered(data) => Sent(data)
    case Threw(failure) => if IsUnauthorized(failure) then Expired else Failed(Detail(failure))
  }

  /** The `error` field of a failed result (absent on success). */
  function ErrorField(r: SendResult): (e: Option<Value>)
    ensures e.None? <==> r.Sent?
    ensures r.Expired? ==> e == Some(Str(ExpiredError))
    ensures r.Failed? ==> e == Some(r.error)
  {
    match r
    case Sent(_) => None
    case Expired => Some(Str(ExpiredError))
    case Failed(error) => Some(error)
  }

  /**
   * The `error` field of what the POST's answer resolves to: none after an
   * answer, `TOKEN_EXPIRED` for a 401 and the failure detail otherwise.
   */
  lemma ErrorFieldOfAnswer(d: Delivery)
    ensures ErrorField(Classify(d)).None? <==> d.Delivered?
    ensures d.Threw? && IsUnauthorized(d.failure) ==> ErrorField(Classify(d)) == Some(Str(ExpiredError))
    ensures d.Threw? && !IsUnauthorized(d.failure) ==> ErrorField(Classify(d)) == Some(Detail(d.failure))
  {
  }

  /** Lines 123-139: 0 after a success, 1 otherwise. */
  function ExitCode(r: SendResult): (code: int)
    ensures code == 0 <==> r.Sent?
    ensures code == 0 || code == 1
  {
    if r.Sent? then 0 else 1
  }

  /** Lines 37-87 with the POST's answer given as `delivery`. */
  method SendKakaoMessage(message: string, accessToken: string, delivery: Delivery)
    returns (request: SendRequest, result: SendResult)
    ensures request.url == SendEndpoint && request.authorization == "Bearer " + accessToken
    ensures request.template == Template("text", Truncate(message), LinkUrl, LinkUrl)
    ensures result == Classify(delivery)
  {
    var truncatedMessage := message;
    if |message| > MaxLength {
      truncatedMessage := message[..MaxLength - 50] + Suffix;
    }
    request := SendRequest(SendEndpoint, "Bearer " + accessToken, Template("text", truncatedMessage, LinkUrl, LinkUrl));
    match delivery {
      case Delivered(data) =>
        result := Sent(data);
      case Threw(failure) =>
        if failure.ErrorResponse? && failure.status == 401 {
          result := Expired;
        } else {
          result := Failed(Detail(failure));
        }
    }
  }

  /** What `fs` finds at a path: a file it reads, or something `readFileSync` throws on. */
  datatype FileEntry = Regular(content: string) | Unreadable

  /** Standard input: a terminal, or a stream that delivers these chunks and ends. */
  datatype Stdin = Terminal | Piped(chunks: seq<string>)

  /** `Buffer.concat(chunks).toString('utf8')`, chunks taken as already decoded. */
  function Concat(chunks: seq<string>): (s: string)
    ensures chunks == [] ==> s == ""
  {
    if chunks == [] then "" else Concat(chunks[..|chunks| - 1]) + chunks[|chunks| - 1]
  }

  /** Concatenation is taken piecewise: a stream split differently gives the same message. */
  lemma {:induction false} ConcatAppend(a: seq<string>, b: seq<string>)
    ensures Concat(a + b) == Concat(a) + Concat(b)
    decreases |b|
  {
    if b == [] {
      assert a + b == a;
    } else {
      var c := b[..|b| - 1];
      assert (a + b)[..|a + b| - 1] == a + c;
      ConcatAppend(a, c);
    }
  }

  /** Every chunk contributes all its characters, in its place between the chunks before and after it. */
  lemma {:induction false} ConcatAt(chunks: seq<string>, i: nat)
    requires i < |chunks|
    ensures Concat(chunks) == Concat(chunks[..i]) + chunks[i] + Concat(chunks[i + 1..])
  {
    var a, b, c := chunks[..i], [chunks[i]], chunks[i + 1..];
    assert chunks == a + (b + c);
    ConcatAppend(a, b + c);
    ConcatAppend(b, c);
    ConcatSingle(chunks[i]);
  }

  lemma ConcatSingle(chunk: string)
    ensures Concat([chunk]) == chunk
  {
    assert [chunk][..0] == [];
  }

  /** Line 116. */
  function DefaultMessage(now: string): string {
    "📰 Morning Briefing Test\n\n이것은 테스트 메시지입니다.\n\n전송 시간: " + now
  }

  /** `!ACCESS_TOKEN`. */
  predicate TokenMissing(accessToken: Option<string>) {
    accessToken.None? || accessToken.value == ""
  }

  /** `process.argv[2]` is truthy. */
  predicate PathGiven(arg: Option<string>) {
    arg.Some? && arg.value != ""
  }

  /** What a run did: the request it posted, the result it got and the exit status. */
  datatype Outcome = Outcome(request: Option<SendRequest>, result: Option<SendResult>, exitCode: int)

  /**
   * Lines 23-30 and 92-146. `arg` is `process.argv[2]`, `files` the file
   * system, `now` the localised time and `delivery` the POST's answer.
   */
  method Run(accessToken: Option<string>, arg: Option<string>, files: map<string, FileEntry>, stdin: Stdin,
              now: string, delivery: Delivery)
    returns (o: Outcome)
    ensures TokenMissing(accessToken) ==> o == Outcome(None, None, 1)
    ensures o.exitCode == 0 <==> o.result.Some? && o.result.value.Sent?
    ensures o.exitCode == 0 || o.exitCode == 1
    ensures o.request.Some? <==> o.result.Some?
    ensures o.result.Some? ==> o.result.value == Classify(delivery)
    ensures !TokenMissing(accessToken) && PathGiven(arg) && (arg.value !in files || files[arg.value].Unreadable?) ==>
              o == Outcome(None, None, 1)
    ensures !TokenMissing(accessToken) && PathGiven(arg) && arg.value in files && files[arg.value].Regular? ==>
              o.request.Some? && o.request.value.template.text == Truncate(files[arg.value].content)
    ensures !TokenMissing(accessToken) && !PathGiven(arg) && stdin.Piped? ==>
              o.request.Some? && o.request.value.template.text == Truncate(Concat(stdin.chunks))
    ensures !TokenMissing(accessToken) && !PathGiven(arg) && stdin.Terminal? ==>
              o.request.Some? && o.request.value.template.text == Truncate(DefaultMessage(now))
    ensures o.request.Some? ==> o.request.value.authorization == "Bearer " + accessToken.value
  {
    if TokenMissing(accessToken) {
      return Outcome(None, None, 1);
    }
    var message: string;
    if PathGiven(arg) {
      var filePath := arg.value;
      if filePath !in files {
        return Outcome(None, None, 1);
      }
      match files[filePath] {
        case Unreadable =>
          // readFileSync throws; main's promise rejects and the handler of line 143 exits with 1
          return Outcome(None, None, 1);
        case Regular(content) =>
          message := content;
      }
    } else if stdin.Piped? {
      var chunks: seq<string> := [];
      for i := 0 to |stdin.chunks|
        invariant chunks == stdin.chunks[..i]
      {
        chunks := chunks + [stdin.chunks[i]];
      }
      assert chunks == stdin.chunks;
      message := Concat(chunks);
    } else {
      message := DefaultMessage(now);
    }
    var request, result := SendKakaoMessage(message, accessToken.value, delivery);
    o := Outcome(Some(request), Some(result), ExitCode(result));
  }
}
