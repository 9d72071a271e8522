/** The image upload widget: a dropped or picked file goes through a type,
    a size and a resolution check, and an accepted file can be sent to the
    reconstruction backend. The widget's whole state is one UploadState
    value that each handler replaces. */
module Upload {
  import opened JsStrings
  import opened JsNumbers

  const MinWidth: nat := 256
  const MinHeight: nat := 256
  const DefaultAccept: string := "image/png,image/jpeg,image/webp"
  const DefaultMaxSizeMB: nat := 20

  const UnsupportedTypeMessage: string := "Unsupported file type. Please upload JPG / PNG / WEBP."
  const DecodeFailedMessage: string := "Failed to read image resolution. Please try another image."
  const NoFileMessage: string := "Please upload an image before continuing."
  const StubMessage: string := "Frontend upload flow works. Backend endpoint is not connected yet."
  const NetworkErrorMessage: string := "Network error while uploading."

  function SizeMessage(maxSizeMB: nat): string {
    "Max file size is " + NatToString(maxSizeMB) + " MB."
  }

  function LowResolutionMessage(width: nat, height: nat): string {
    "Image resolution is too low (" + NatToString(width) + " \U{00D7} " + NatToString(height)
    + "). Minimum recommended is " + NatToString(MinWidth) + " \U{00D7} " + NatToString(MinHeight) + "."
  }

  function UploadFailedMessage(status: nat): string {
    "Upload failed (" + NatToString(status) + ")"
  }

  function UnexpectedResponseMessage(status: nat): string {
    "Unexpected server response (" + NatToString(status) + ")."
  }

  /** A browser File: its name, MIME type and size in bytes. */
  datatype File = File(name: string, mime: string, size: nat)

  /** The fields of a JSON reply the widget looks at; `message` is what the
      offline stub puts in its result. */
  datatype Payload = Payload(previewUrl: Option<string>, error: Option<string>, message: Option<string>)

  datatype UploadState =
    | Idle
    | Ready(file: File, preview: string)
    | Uploading(file: File, preview: string, progress: Num)
    | Done(file: File, preview: string, result: Payload)
    | Error(file?: Option<File>, preview?: Option<string>, message: string)

  /** `"file" in state && state.file`. */
  predicate HasFile(s: UploadState) {
    !s.Idle? && (s.Error? ==> s.file?.Some?)
  }

  function FileOf(s: UploadState): File
    requires HasFile(s)
  {
    if s.Error? then s.file?.value else s.file
  }

  /** The preview of a state with a file; an error with a file always has
      a preview as well (see Widget.Valid). */
  function PreviewOf(s: UploadState): string
    requires HasFile(s)
  {
    if s.Error? then s.preview?.GetOr("") else s.preview
  }

  // ------------------------------------------------------------ checks

  /** The accept string split on commas, each rule trimmed. */
  function AcceptList(accept: string): seq<string> {
    var parts := SplitOn(accept, ',');
    seq(|parts|, i requires 0 <= i < |parts| => Trim(parts[i]))
  }

  /** A rule starting with `.` is a case-insensitive file-name suffix; any
      other rule is an exact MIME type. */
  predicate RuleMatches(rule: string, f: File) {
    if StartsWith(rule, ".") then EndsWith(ToLower(f.name), ToLower(rule)) else f.mime == rule
  }

  /** `acceptList.some(...)`. */
  function TypeAccepted(rules: seq<string>, f: File): (ok: bool)
    ensures ok <==> exists i :: 0 <= i < |rules| && RuleMatches(rules[i], f)
  {
    if rules == [] then false
    else RuleMatches(rules[0], f) || TypeAccepted(rules[1..], f)
  }

  /** An extension rule compares the end of the file name case-insensitively. */
  lemma ExtensionRule(rule: string, f: File)
    requires StartsWith(rule, ".")
    ensures RuleMatches(rule, f)
        <==> |rule| <= |f.name| && ToLower(f.name[|f.name| - |rule|..]) == ToLower(rule)
  {
    EndsWithIgnoringCase(f.name, rule);
  }

  /** An accept string joined from trimmed, comma-free rules splits back
      into those rules. */
  lemma AcceptListOfJoin(rules: seq<string>)
    requires |rules| >= 1
    requires forall i :: 0 <= i < |rules| ==> ',' !in rules[i] && Trim(rules[i]) == rules[i]
    ensures AcceptList(Join(rules, ',')) == rules
  {
    JoinSplitOn(rules, ',');
  }

  /** With MIME rules only, a file is accepted exactly when its type is listed. */
  lemma {:induction false} MimeRulesOnly(rules: seq<string>, f: File)
    requires forall i :: 0 <= i < |rules| ==> rules[i] != [] && rules[i][0] != '.'
    ensures TypeAccepted(rules, f) <==> f.mime in rules
  {
    if rules != [] {
      assert !StartsWith(rules[0], ".");
      MimeRulesOnly(rules[1..], f);
      assert rules == [rules[0]] + rules[1..];
    }
  }

  /** The MIME types the default accept string lists. */
  const DefaultMimes: seq<string> := ["image/png", "image/jpeg", "image/webp"]

  lemma DefaultAcceptRules()
    ensures AcceptList(DefaultAccept) == DefaultMimes
  {
    var rules := DefaultMimes;
    assert Join(rules[2..], ',') == "image/webp";
    assert Join(rules[1..], ',') == "image/jpeg" + [','] + "image/webp";
    assert Join(rules, ',') == DefaultAccept;
    TrimOfTrimmed(rules[0]);
    TrimOfTrimmed(rules[1]);
    TrimOfTrimmed(rules[2]);
    AcceptListOfJoin(rules);
  }

  lemma DefaultMimesAreTypes()
    ensures forall i :: 0 <= i < |DefaultMimes| ==> DefaultMimes[i] != [] && DefaultMimes[i][0] != '.'
  {
    assert DefaultMimes[0][0] == 'i' && DefaultMimes[1][0] == 'i' && DefaultMimes[2][0] == 'i';
  }

  /** The default accept string admits exactly PNG, JPEG and WebP by MIME type. */
  lemma DefaultAcceptsImages(f: File)
    ensures TypeAccepted(AcceptList(DefaultAccept), f) <==> f.mime in DefaultMimes
  {
    DefaultAcceptRules();
    DefaultMimesAreTypes();
    MimeRulesOnly(DefaultMimes, f);
  }

  /** The byte limit for a limit in megabytes. */
  function SizeLimit(maxSizeMB: nat): nat {
    maxSizeMB * 1024 * 1024
  }

  /** The message of the first check a file fails before decoding, or None:
      the type is checked before the size. */
  function Admit(accept: string, maxSizeMB: nat, f: File): (r: Option<string>)
    ensures !TypeAccepted(AcceptList(accept), f) ==> r == Some(UnsupportedTypeMessage)
    ensures TypeAccepted(AcceptList(accept), f) && f.size > SizeLimit(maxSizeMB) ==> r == Some(SizeMessage(maxSizeMB))
    ensures r.None? <==> TypeAccepted(AcceptList(accept), f) && f.size <= SizeLimit(maxSizeMB)
  {
    if !TypeAccepted(AcceptList(accept), f) then Some(UnsupportedTypeMessage)
    else if f.size > maxSizeMB * 1024 * 1024 then Some(SizeMessage(maxSizeMB))
    else None
  }

  /** The size limit is inclusive: a file of exactly the limit passes and one
      byte more fails. */
  lemma SizeLimitInclusive(accept: string, maxSizeMB: nat, f: File)
    requires TypeAccepted(AcceptList(accept), f)
    ensures Admit(accept, maxSizeMB, f.(size := maxSizeMB * 1048576)).None?
    ensures Admit(accept, maxSizeMB, f.(size := maxSizeMB * 1048576 + 1)) == Some(SizeMessage(maxSizeMB))
  {
    assert TypeAccepted(AcceptList(accept), f.(size := maxSizeMB * 1048576)) by {
      var i :| 0 <= i < |AcceptList(accept)| && RuleMatches(AcceptList(accept)[i], f);
      assert RuleMatches(AcceptList(accept)[i], f.(size := maxSizeMB * 1048576));
    }
    assert TypeAccepted(AcceptList(accept), f.(size := maxSizeMB * 1048576 + 1)) by {
      var i :| 0 <= i < |AcceptList(accept)| && RuleMatches(AcceptList(accept)[i], f);
      assert RuleMatches(AcceptList(accept)[i], f.(size := maxSizeMB * 1048576 + 1));
    }
  }

  /** The resolution check on a decoded image. */
  function AfterDecode(f: File, url: string, width: nat, height: nat): (s: UploadState)
    ensures s.Ready? <==> width >= MinWidth && height >= MinHeight
    ensures HasFile(s) && FileOf(s) == f && PreviewOf(s) == url
    ensures s.Error? ==> s.preview?.Some?
  {
    if width < MinWidth || height < MinHeight then
      Error(Some(f), Some(url), LowResolutionMessage(width, height))
    else Ready(f, url)
  }

  // -------------------------------------------------------------- urls

  /** `buildBase`: the empty string stays empty, otherwise one trailing `/`
      is removed. */
  function BuildBase(s: string): (r: string)
    ensures s == [] ==> r == []
    ensures EndsWith(s, "/") ==> r + "/" == s
    ensures !EndsWith(s, "/") ==> r == s
  {
    if s == [] then []
    else if s[|s| - 1] == '/' then s[..|s| - 1]
    else s
  }

  /** `buildAbs`: absolute URLs pass through, relative ones are joined to the
      base with exactly one `/` between them. */
  function BuildAbs(apiBase: string, maybeRel: string): (r: string)
    ensures StartsWith(maybeRel, "http") ==> r == maybeRel
    ensures !StartsWith(maybeRel, "http") ==>
              r == BuildBase(apiBase) + "/" + (if StartsWith(maybeRel, "/") then maybeRel[1..] else maybeRel)
  {
    if StartsWith(maybeRel, "http") then maybeRel
    else BuildBase(apiBase) + (if StartsWith(maybeRel, "/") then "" else "/") + maybeRel
  }

  /** A joined URL starts with the base and ends with the relative part. */
  lemma BuildAbsParts(apiBase: string, rel: string)
    requires !StartsWith(rel, "http")
    ensures StartsWith(BuildAbs(apiBase, rel), BuildBase(apiBase) + "/")
    ensures EndsWith(BuildAbs(apiBase, rel), rel)
  {
    var b := BuildBase(apiBase);
    var r := BuildAbs(apiBase, rel);
    if StartsWith(rel, "/") {
      assert rel == "/" + rel[1..];
      assert r == b + rel;
    } else {
      assert r == b + "/" + rel;
    }
    assert r[..|b + "/"|] == b + "/";
    assert r[|r| - |rel|..] == rel;
  }

  /** The backend endpoint. */
  function UploadUrl(apiBase: string): string {
    BuildBase(apiBase) + "/upload"
  }

  /** A reply's relative `preview_url` (a non-empty string that does not
      start with "http") is made absolute; nothing else changes. */
  function Absolutize(apiBase: string, data: Payload): (r: Payload)
    ensures r.error == data.error && r.message == data.message
    ensures r.previewUrl.None? <==> data.previewUrl.None?
    ensures r.previewUrl.Some? && r.previewUrl.value != [] ==>
              StartsWith(r.previewUrl.value, "http") || StartsWith(r.previewUrl.value, BuildBase(apiBase) + "/")
    ensures data.previewUrl.Some? && data.previewUrl.value != [] && !StartsWith(data.previewUrl.value, "http") ==>
              r.previewUrl == Some(BuildAbs(apiBase, data.previewUrl.value))
    ensures data.previewUrl.None? || data.previewUrl.value == [] || StartsWith(data.previewUrl.value, "http") ==>
              r == data
  {
    match data.previewUrl
    case Some(u) =>
      if u != [] && !StartsWith(u, "http") then
        BuildAbsParts(apiBase, u);
        data.(previewUrl := Some(BuildAbs(apiBase, u)))
      else data
    case None => data
  }

  /** `data?.error || "Upload failed (status)"`. */
  function FailureMessage(data: Payload, status: nat): (m: string)
    ensures data.error.Some? && data.error.value != [] ==> m == data.error.value
    ensures data.error.None? || data.error.value == [] ==> m == UploadFailedMessage(status)
  {
    if data.error.Some? && data.error.value != [] then data.error.value else UploadFailedMessage(status)
  }

  /** `Math.round`: the nearest integer, halves rounded up. */
  function Round(n: Num): (r: Num)
    ensures r.Finite? <==> n.Finite?
    ensures r.Finite? ==> r.value == r.value.Floor as real
    ensures r.Finite? ==> r.value - 0.5 <= n.value < r.value + 0.5
  {
    if n.Finite? then Finite(((n.value + 0.5).Floor) as real) else NonFinite
  }

  /** The percentage shown for `loaded` of `total` bytes. */
  function Progress(loaded: nat, total: nat): (r: Num)
    ensures total == 0 ==> r == NonFinite
    ensures r.Finite? ==> r.value == r.value.Floor as real
  {
    Round(Mul(Div(Finite(loaded as real), Finite(total as real)), Finite(100.0)))
  }

  /** The quotient of the bytes sent by the total is a fraction. */
  lemma FractionSent(loaded: nat, total: nat)
    requires 0 < total && loaded <= total
    ensures var q := Div(Finite(loaded as real), Finite(total as real));
            q.Finite? && 0.0 <= q.value <= 1.0 && (loaded == total ==> q.value == 1.0)
  {
    var q := Div(Finite(loaded as real), Finite(total as real));
    var t := total as real;
    assert q.value * t == loaded as real;
    if loaded == total {
      assert q.value == t / t;
      SelfQuotient(t);
    }
  }

  lemma SelfQuotient(t: real)
    requires t > 0.0
    ensures t / t == 1.0
  {
  }

  /** While the bytes sent do not exceed the total, the percentage is a
      whole number between 0 and 100, and 100 once everything is sent. */
  lemma ProgressIsPercentage(loaded: nat, total: nat)
    requires 0 < total && loaded <= total
    ensures Progress(loaded, total).Finite?
    ensures 0.0 <= Progress(loaded, total).value <= 100.0
    ensures loaded == total ==> Progress(loaded, total) == Finite(100.0)
  {
    FractionSent(loaded, total);
    var x := Mul(Div(Finite(loaded as real), Finite(total as real)), Finite(100.0)).value;
    assert 0.0 <= x <= 100.0;
    assert 0 <= (x + 0.5).Floor <= 100;
  }

  /** What the XHR `send` captured: the file, its preview and the endpoint. */
  datatype Request = Request(file: File, preview: string, url: string)

  /** A file the image decoder is reading: the file and its object URL. */
  datatype Decoding = Decoding(file: File, url: string)

  class Widget {
    const apiBase: string
    const accept: string
    const maxSizeMB: nat
    var state: UploadState

    /** An error carries a file exactly when it carries a preview. */
    predicate Valid()
      reads this
    {
      state.Error? ==> (state.file?.Some? <==> state.preview?.Some?)
    }

    /** `apiBase` is the configured endpoint, or "" when there is none. */
    constructor(apiBase: string, accept: string, maxSizeMB: nat)
      ensures Valid()
      ensures this.apiBase == apiBase && this.accept == accept && this.maxSizeMB == maxSizeMB
      ensures state == Idle
    {
      this.apiBase := apiBase;
      this.accept := accept;
      this.maxSizeMB := maxSizeMB;
      state := Idle;
    }

    method Reset()
      requires Valid()
      modifies this
      ensures Valid()
      ensures state == Idle
    {
      state := Idle;
    }

    /** A file list arrives (drop or picker); `objectUrl` is the URL the
        browser creates for the file. A file passing the type and size checks
        starts decoding and leaves the state as it was. */
    method OnFiles(first: Option<File>, objectUrl: string) returns (decoding: Option<Decoding>)
      requires Valid()
      modifies this
      ensures Valid()
      ensures first.None? ==> state == old(state) && decoding.None?
      ensures first.Some? && Admit(accept, maxSizeMB, first.value).Some? ==>
                state == Error(None, None, Admit(accept, maxSizeMB, first.value).value) && decoding.None?
      ensures first.Some? && Admit(accept, maxSizeMB, first.value).None? ==>
                state == old(state) && decoding == Some(Decoding(first.value, objectUrl))
    {
      decoding := None;
      if first.None? {
        return;
      }
      var f := first.value;
      var refused := Admit(accept, maxSizeMB, f);
      if refused.Some? {
        state := Error(None, None, refused.value);
        return;
      }
      decoding := Some(Decoding(f, objectUrl));
    }

    /** The image decoded with the given dimensions. */
    method OnImageLoad(d: Decoding, width: nat, height: nat)
      requires Valid()
      modifies this
      ensures Valid()
      ensures state == AfterDecode(d.file, d.url, width, height)
    {
      if width < MinWidth || height < MinHeight {
        state := Error(Some(d.file), Some(d.url), LowResolutionMessage(width, height));
      } else {
        state := Ready(d.file, d.url);
      }
    }

    /** The image could not be decoded; the file is dropped. */
    method OnImageError(d: Decoding)
      requires Valid()
      modifies this
      ensures Valid()
      ensures state == Error(None, None, DecodeFailedMessage)
    {
      state := Error(None, None, DecodeFailedMessage);
    }

    /** `onUpload` up to `xhr.send`: the request it sends, if any. */
    method OnUpload() returns (request: Option<Request>)
      requires Valid()
      modifies this
      ensures Valid()
      ensures !HasFile(old(state)) ==> state == Error(None, None, NoFileMessage) && request.None?
      ensures HasFile(old(state)) && old(state).Uploading? ==> state == old(state) && request.None?
      ensures HasFile(old(state)) && !old(state).Uploading? && apiBase == [] ==>
                state == Done(FileOf(old(state)), PreviewOf(old(state)), Payload(None, None, Some(StubMessage)))
                && request.None?
      ensures HasFile(old(state)) && !old(state).Uploading? && apiBase != [] ==>
                state == Uploading(FileOf(old(state)), PreviewOf(old(state)), Finite(0.0))
                && request == Some(Request(FileOf(old(state)), PreviewOf(old(state)), UploadUrl(apiBase)))
    {
      request := None;
      if !HasFile(state) {
        state := Error(None, None, NoFileMessage);
        return;
      }
      if state.Uploading? {
        return;
      }
      var file := FileOf(state);
      var preview := PreviewOf(state);
      if apiBase == [] {
        state := Done(file, preview, Payload(None, None, Some(StubMessage)));
        return;
      }
      state := Uploading(file, preview, Finite(0.0));
      request := Some(Request(file, preview, UploadUrl(apiBase)));
    }

    /** An upload progress event; only an uploading state takes it. */
    method OnProgress(lengthComputable: bool, loaded: nat, total: nat)
      requires Valid()
      modifies this
      ensures Valid()
      ensures lengthComputable && old(state).Uploading? ==>
                state == old(state).(progress := Progress(loaded, total))
      ensures !lengthComputable || !old(state).Uploading? ==> state == old(state)
    {
      if lengthComputable && state.Uploading? {
        state := state.(progress := Progress(loaded, total));
      }
    }

    /** The response arrived; `reply` is the parsed body of the response
        text (`"{}"` when empty), or None when it is not JSON. The request's
        file and preview are kept whatever the state is meanwhile. */
    method OnLoad(req: Request, status: nat, reply: Option<Payload>)
      requires Valid()
      modifies this
      ensures Valid()
      ensures reply.None? ==> state == Error(Some(req.file), Some(req.preview), UnexpectedResponseMessage(status))
      ensures reply.Some? && 200 <= status < 300 ==> state == Done(req.file, req.preview, Absolutize(apiBase, reply.value))
      ensures reply.Some? && !(200 <= status < 300) ==>
                state == Error(Some(req.file), Some(req.preview), FailureMessage(reply.value, status))
    {
      if reply.None? {
        state := Error(Some(req.file), Some(req.preview), UnexpectedResponseMessage(status));
      } else if 200 <= status < 300 {
        state := Done(req.file, req.preview, Absolutize(apiBase, reply.value));
      } else {
        state := Error(Some(req.file), Some(req.preview), FailureMessage(reply.value, status));
      }
    }

    method OnNetworkError(req: Request)
      requires Valid()
      modifies this
      ensures Valid()
      ensures state == Error(Some(req.file), Some(req.preview), NetworkErrorMessage)
    {
      state := Error(Some(req.file), Some(req.preview), NetworkErrorMessage);
    }
  }
}
