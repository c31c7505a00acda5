/** The Signal channel (src/channels/signal.rs): reading the outcome of `signal-cli
    register`, the receive loop's failure counter, and what an incoming envelope yields
    (who sent it, its text and its image attachments). The signal-cli process, the daemon
    and its JSON-RPC connection are not part of this model: their results are inputs. */
module Signal {
  import opened Wrappers
  import opened Strings

  // ---------------------------------------------------------------------------------
  // Registration
  // ---------------------------------------------------------------------------------

  datatype RegistrationResult = Success | CaptchaRequired | AlreadyRegistered | AuthorizationFailed | RateLimited

  /** What precedes signal-cli's trimmed output when a supplied captcha was refused. */
  const CAPTCHA_FAILED_TEXT := "CAPTCHA verification failed. The token may have expired or been invalid.\nPlease try again with a fresh CAPTCHA.\nsignal-cli output: "

  function CaptchaFailed(combined: string): string {
    CAPTCHA_FAILED_TEXT + Trim(combined)
  }

  function RegistrationFailed(combined: string): string {
    "Registration failed: " + Trim(combined)
  }

  /** The combined output mentions `pat`, in any ASCII case. */
  predicate Mentions(combined: string, pat: string) {
    Contains(ToLower(combined), pat)
  }

  /** The output names one of the failures the setup wizard knows how to explain. */
  predicate Recognised(combined: string) {
    Mentions(combined, "captcha") || Mentions(combined, "already registered")
    || Mentions(combined, "authorization failed") || Mentions(combined, "403")
    || Mentions(combined, "rate limit") || Mentions(combined, "429")
  }

  /** `register_account` once signal-cli has exited with a failure: the lower-cased
      stdout-then-stderr text is searched, in this order, for "captcha", "already
      registered", "authorization failed"/"403" and "rate limit"/"429". A captcha complaint
      after a captcha was supplied is an error, and so is output that names none of them. */
  function FailedRegistration(combined: string, captcha: Option<string>): (r: Result<RegistrationResult>)
    ensures r != Ok(Success)
    ensures r == Ok(CaptchaRequired) <==> Mentions(combined, "captcha") && captcha.None?
    ensures r == Ok(AlreadyRegistered) <==>
              !Mentions(combined, "captcha") && Mentions(combined, "already registered")
    ensures r == Ok(AuthorizationFailed) <==>
              !Mentions(combined, "captcha") && !Mentions(combined, "already registered")
              && (Mentions(combined, "authorization failed") || Mentions(combined, "403"))
    ensures r == Ok(RateLimited) <==>
              !Mentions(combined, "captcha") && !Mentions(combined, "already registered")
              && !Mentions(combined, "authorization failed") && !Mentions(combined, "403")
              && (Mentions(combined, "rate limit") || Mentions(combined, "429"))
    ensures r.Err? <==> (Mentions(combined, "captcha") && captcha.Some?) || !Recognised(combined)
    ensures r.Err? && Mentions(combined, "captcha") ==> r.msg == CaptchaFailed(combined)
    ensures r.Err? && !Mentions(combined, "captcha") ==> r.msg == RegistrationFailed(combined)
  {
    if Mentions(combined, "captcha") then
      if captcha.Some? then Err(CaptchaFailed(combined)) else Ok(CaptchaRequired)
    else if Mentions(combined, "already registered") then Ok(AlreadyRegistered)
    else if Mentions(combined, "authorization failed") || Mentions(combined, "403") then Ok(AuthorizationFailed)
    else if Mentions(combined, "rate limit") || Mentions(combined, "429") then Ok(RateLimited)
    else Err(RegistrationFailed(combined))
  }

  /** `register_account`: a zero exit status is success whatever was printed; otherwise
      stdout and stderr are read together, stdout first. */
  function ClassifyRegistration(exitOk: bool, stdout: string, stderr: string, captcha: Option<string>)
    : (r: Result<RegistrationResult>)
    ensures r == Ok(Success) <==> exitOk
    ensures !exitOk ==> r == FailedRegistration(stdout + stderr, captcha)
  {
    if exitOk then Ok(Success) else FailedRegistration(stdout + stderr, captcha)
  }

  /** The checks are ordered: a captcha complaint wins over every other message, and
      "already registered" over an authorization failure or a rate limit. */
  lemma RegistrationChecksInOrder(stdout: string, stderr: string)
    requires Mentions(stdout + stderr, "already registered")
    ensures !Mentions(stdout + stderr, "captcha") ==>
      ClassifyRegistration(false, stdout, stderr, None) == Ok(AlreadyRegistered)
      && ClassifyRegistration(false, stdout, stderr, Some("token")) == Ok(AlreadyRegistered)
    ensures Mentions(stdout + stderr, "captcha") ==>
      ClassifyRegistration(false, stdout, stderr, None) == Ok(CaptchaRequired)
  {
  }

  /** The outcome depends on the output only through its lower-cased text (and, for the
      error messages, its trimmed text): capitals never change the verdict. */
  lemma RegistrationIgnoresCase(combined1: string, combined2: string, captcha: Option<string>)
    requires ToLower(combined1) == ToLower(combined2)
    ensures FailedRegistration(combined1, captcha).Ok? == FailedRegistration(combined2, captcha).Ok?
    ensures FailedRegistration(combined1, captcha).Ok? ==>
      FailedRegistration(combined1, captcha) == FailedRegistration(combined2, captcha)
  {
  }

  // ---------------------------------------------------------------------------------
  // The receive loop
  // ---------------------------------------------------------------------------------

  const MAX_CONSECUTIVE_FAILURES: nat := 10

  /** One `receive` call: the number of messages it returned, or a failure. */
  datatype Receive = Received(count: nat) | ReceiveFailed

  /** The consecutive-failure counter after a run of receives, as the loop keeps it. */
  function FailuresAfter(rs: seq<Receive>): nat
    decreases |rs|
  {
    if rs == [] then 0
    else if rs[|rs| - 1].ReceiveFailed? then FailuresAfter(rs[..|rs| - 1]) + 1
    else 0
  }

  /** The counter is the length of the trailing run of failures: the last `n` receives
      failed, and the one before them (if any) succeeded. */
  lemma {:induction false} FailuresAreTrailingRun(rs: seq<Receive>)
    ensures FailuresAfter(rs) <= |rs|
    ensures forall i :: |rs| - FailuresAfter(rs) <= i < |rs| ==> rs[i].ReceiveFailed?
    ensures FailuresAfter(rs) < |rs| ==> rs[|rs| - FailuresAfter(rs) - 1].Received?
    decreases |rs|
  {
    if rs != [] && rs[|rs| - 1].ReceiveFailed? {
      var prefix := rs[..|rs| - 1];
      FailuresAreTrailingRun(prefix);
      assert forall i :: 0 <= i < |prefix| ==> prefix[i] == rs[i];
    }
  }

  /** `run_message_loop` over a finite run of receive outcomes: it counts consecutive
      failures, resets on every successful receive, and asks for a daemon restart as soon as
      the count reaches 10. `consumed` is how many receives it made. */
  method RunMessageLoop(rs: seq<Receive>) returns (restart: bool, consumed: nat)
    ensures consumed <= |rs|
    ensures restart ==> FailuresAfter(rs[..consumed]) == MAX_CONSECUTIVE_FAILURES
    ensures !restart ==> consumed == |rs|
    ensures forall k :: 0 <= k < consumed ==> FailuresAfter(rs[..k]) < MAX_CONSECUTIVE_FAILURES
    ensures !restart ==> FailuresAfter(rs) < MAX_CONSECUTIVE_FAILURES
  {
    var failures: nat := 0;
    var i := 0;
    while i < |rs|
      invariant 0 <= i <= |rs|
      invariant failures == FailuresAfter(rs[..i])
      invariant failures < MAX_CONSECUTIVE_FAILURES
      invariant forall k :: 0 <= k < i ==> FailuresAfter(rs[..k]) < MAX_CONSECUTIVE_FAILURES
    {
      assert rs[..i + 1][..i] == rs[..i];
      if rs[i].Received? {
        failures := 0;
      } else {
        failures := failures + 1;
        if failures >= MAX_CONSECUTIVE_FAILURES {
          return true, i + 1;
        }
      }
      i := i + 1;
    }
    assert rs[..i] == rs;
    return false, i;
  }

  /** After a successful receive, the counter is the number of failures since: ten failures
      in a row after any history bring it to 10, the restart threshold. */
  lemma {:induction false} FailuresSinceSuccess(before: seq<Receive>, count: nat, n: nat)
    ensures FailuresAfter(before + [Received(count)] + seq(n, _ => ReceiveFailed)) == n
    decreases n
  {
    var rs := before + [Received(count)] + seq(n, _ => ReceiveFailed);
    if n > 0 {
      assert rs[..|rs| - 1] == before + [Received(count)] + seq(n - 1, _ => ReceiveFailed);
      FailuresSinceSuccess(before, count, n - 1);
    } else {
      assert rs == before + [Received(count)];
    }
  }

  // ---------------------------------------------------------------------------------
  // Incoming envelopes
  // ---------------------------------------------------------------------------------

  datatype Attachment = Attachment(contentType: Option<string>, id: Option<string>)

  datatype DataMessage = DataMessage(message: Option<string>, attachments: Option<seq<Attachment>>)

  datatype Envelope = Envelope(
    source: Option<string>,
    sourceNumber: Option<string>,
    sourceUuid: Option<string>,
    sourceName: Option<string>,
    dataMessage: Option<DataMessage>)

  datatype SignalMessage = SignalMessage(envelope: Option<Envelope>)

  /** `is_image_content_type`: the four image formats the assistant can read. */
  function IsImageContentType(ct: string): (b: bool)
    ensures b <==> ct in {"image/jpeg", "image/png", "image/gif", "image/webp"}
  {
    ct == "image/jpeg" || ct == "image/png" || ct == "image/gif" || ct == "image/webp"
  }

  /** The sender: the phone number, else the UUID, else the plain source; "" when none. */
  function Sender(e: Envelope): (s: string)
    ensures e.sourceNumber.Some? ==> s == e.sourceNumber.value
    ensures e.sourceNumber.None? && e.sourceUuid.Some? ==> s == e.sourceUuid.value
    ensures e.sourceNumber.None? && e.sourceUuid.None? && e.source.Some? ==> s == e.source.value
    ensures e.sourceNumber.None? && e.sourceUuid.None? && e.source.None? ==> s == ""
  {
    e.sourceNumber.Or(e.sourceUuid).Or(e.source).GetOr("")
  }

  /** A present but empty phone number is taken as the sender, so the UUID is not consulted
      and the message is dropped. */
  lemma EmptyNumberHidesUuid(uuid: string, d: Option<DataMessage>)
    ensures Sender(Envelope(None, Some(""), Some(uuid), None, d)) == ""
  {
  }

  /** Where signal-cli keeps an attachment, relative to its data directory. */
  function AttachmentPath(id: string): seq<string> {
    ["attachments", id]
  }

  /** An attachment the model can be shown: an image type, an ID, and a file on disk. */
  predicate IsShownImage(a: Attachment, existing: set<string>) {
    a.contentType.Some? && IsImageContentType(a.contentType.value) && a.id.Some? && a.id.value in existing
  }

  /** The image filter of `handle_message`: the paths of the attachments that are images
      with an ID whose file exists (`existing` is the set of IDs with a file), in order. */
  function ImagePaths(atts: seq<Attachment>, existing: set<string>): (r: seq<seq<string>>)
    ensures |r| <= |atts|
    decreases |atts|
  {
    if atts == [] then []
    else if IsShownImage(atts[0], existing) then [AttachmentPath(atts[0].id.value)] + ImagePaths(atts[1..], existing)
    else ImagePaths(atts[1..], existing)
  }

  /** Exactly the shown images' paths are kept: each attachment contributes its path iff
      it is an image with an existing file, and nothing else is added. */
  lemma {:induction false} ImagePathsExact(atts: seq<Attachment>, existing: set<string>, p: seq<string>)
    ensures p in ImagePaths(atts, existing) <==>
      exists i :: 0 <= i < |atts| && IsShownImage(atts[i], existing) && p == AttachmentPath(atts[i].id.value)
    decreases |atts|
  {
    if atts != [] {
      ImagePathsExact(atts[1..], existing, p);
      assert forall i :: 1 <= i < |atts| ==> atts[1..][i - 1] == atts[i];
      if exists i :: 0 <= i < |atts| && IsShownImage(atts[i], existing) && p == AttachmentPath(atts[i].id.value) {
        var i :| 0 <= i < |atts| && IsShownImage(atts[i], existing) && p == AttachmentPath(atts[i].id.value);
        if i > 0 {
          assert atts[1..][i - 1] == atts[i];
        }
      }
    }
  }

  /** What `handle_message` passes on to the pairing and routing logic. */
  datatype Incoming = Incoming(sender: string, text: string, imagePaths: seq<seq<string>>, displayName: Option<string>)

  /** `handle_message` up to routing: nothing without an envelope, a sender or a data
      message, and nothing when there is neither text nor an image to show. */
  function Intake(msg: SignalMessage, existing: set<string>): (r: Option<Incoming>)
    ensures r.Some? <==>
      msg.envelope.Some? && Sender(msg.envelope.value) != "" && msg.envelope.value.dataMessage.Some?
      && (msg.envelope.value.dataMessage.value.message.GetOr("") != ""
          || ImagePaths(msg.envelope.value.dataMessage.value.attachments.GetOr([]), existing) != [])
    ensures r.Some? ==> (r.value.sender == Sender(msg.envelope.value)
      && r.value.text == msg.envelope.value.dataMessage.value.message.GetOr("")
      && r.value.imagePaths == ImagePaths(msg.envelope.value.dataMessage.value.attachments.GetOr([]), existing)
      && r.value.displayName == msg.envelope.value.sourceName)
  {
    match msg.envelope
    case None => None
    case Some(e) =>
      var sender := Sender(e);
      if sender == "" then None
      else
        match e.dataMessage
        case None => None
        case Some(dm) =>
          var text := dm.message.GetOr("");
          var images := ImagePaths(dm.attachments.GetOr([]), existing);
          if text == "" && images == [] then None
          else Some(Incoming(sender, text, images, e.sourceName))
  }

  /** A picture without a caption still reaches the assistant. */
  lemma CaptionlessImageIsDelivered(number: string, id: string, existing: set<string>)
    requires number != "" && id in existing
    ensures var a := Attachment(Some("image/png"), Some(id));
      var msg := SignalMessage(Some(Envelope(None, Some(number), None, None, Some(DataMessage(None, Some([a]))))));
      Intake(msg, existing) == Some(Incoming(number, "", [AttachmentPath(id)], None))
  {
    var a := Attachment(Some("image/png"), Some(id));
    assert IsImageContentType("image/png");
    assert IsShownImage(a, existing);
    assert [a][1..] == [];
    assert ImagePaths([a], existing) == [AttachmentPath(id)];
  }
}
