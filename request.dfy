/**
  Request construction in `main` (src/main.rs): each subcommand becomes a
  request description — method, normalised URL, the header steps applied to
  the request builder, and the body. Sending the request and printing the
  response are not part of this module.
 */
module Request {
  import opened Wrappers
  import Url
  import HeaderMap

  newtype byte = x: int | 0 <= x < 256

  type Path = string

  /** The subcommands, with their arguments already parsed. */
  datatype Command =
    | Get(url: string, headers: seq<HeaderMap.Pair>)
    | Post(url: string, data: Option<string>, file: Option<Path>, headers: seq<HeaderMap.Pair>)
    | Put(url: string, data: Option<string>, file: Option<Path>, headers: seq<HeaderMap.Pair>)
    | Delete(url: string, headers: seq<HeaderMap.Pair>)
  {
    /** POST and PUT may carry a body; GET and DELETE take no data and no file. */
    predicate TakesPayload() {
      Post? || Put?
    }
  }

  datatype HttpMethod = GET | POST | PUT | DELETE

  /** `multipart::Form::new().part("file", Part::bytes(..))` is recorded as its part name and bytes. */
  datatype Body = NoBody | Raw(data: string) | File(partName: string, contents: seq<byte>)

  /**
    One call on the request builder that touches headers, in call order:
    `.headers(map)` or `.header(name, value)`.
   */
  datatype HeaderStep =
    | SetHeaders(entries: map<HeaderMap.HeaderName, string>)
    | SetHeader(name: HeaderMap.HeaderName, value: string)

  datatype RequestSpec = RequestSpec(verb: HttpMethod, url: string, steps: seq<HeaderStep>, body: Body)

  /** The `expect` on `fs::read`: the invocation stops before any request is sent. */
  datatype Abort = FileUnreadable(path: Path, reason: string)

  const ContentType: HeaderMap.HeaderName := "content-type"
  const ApplicationJson: string := "application/json"
  const FilePart: string := "file"

  /** Reading a whole file, given as an input: its bytes or the reason it failed. */
  type FileReader = Path -> Result<seq<byte>, string>

  function VerbOf(cmd: Command): HttpMethod {
    match cmd
    case Get(_, _) => GET
    case Post(_, _, _, _) => POST
    case Put(_, _, _, _) => PUT
    case Delete(_, _) => DELETE
  }

  /** The body a POST or PUT carries: a readable file wins over `-d` data. */
  function SelectBody(data: Option<string>, file: Option<Path>, read: FileReader): Result<Body, Abort> {
    match file
    case Some(p) =>
      (match read(p)
       case Success(bytes) => Success(File(FilePart, bytes))
       case Failure(why) => Failure(FileUnreadable(p, why)))
    case None =>
      (match data
       case Some(d) => Success(Raw(d))
       case None => Success(NoBody))
  }

  function Payload(cmd: Command, read: FileReader): Result<Body, Abort> {
    if cmd.TakesPayload() then SelectBody(cmd.data, cmd.file, read) else Success(NoBody)
  }

  /** Whether the invocation needs a file that cannot be read. */
  predicate FileFails(cmd: Command, read: FileReader) {
    cmd.TakesPayload() && cmd.file.Some? && read(cmd.file.value).Failure?
  }

  /**
    The request an invocation builds. User headers are applied first; a raw
    body adds the JSON Content-Type after them.
   */
  function Prepare(cmd: Command, rules: HeaderMap.HeaderRules, read: FileReader): (r: Result<RequestSpec, Abort>)
    ensures r.Failure? <==> FileFails(cmd, read)
    ensures r.Failure? ==> r.error == FileUnreadable(cmd.file.value, read(cmd.file.value).error)
    ensures r.Success? ==> r.value.verb == VerbOf(cmd) && r.value.url == Url.EnsureUrlPrefix(cmd.url)
    ensures r.Success? ==> |r.value.steps| >= 1 && r.value.steps[0] == SetHeaders(HeaderMap.HeaderMapOf(cmd.headers, rules))
    ensures r.Success? ==> (r.value.body.Raw? <==> SetHeader(ContentType, ApplicationJson) in r.value.steps)
  {
    match Payload(cmd, read)
    case Failure(e) => Failure(e)
    case Success(body) =>
      var user := SetHeaders(HeaderMap.HeaderMapOf(cmd.headers, rules));
      var steps := if body.Raw? then [user, SetHeader(ContentType, ApplicationJson)] else [user];
      Success(RequestSpec(VerbOf(cmd), Url.EnsureUrlPrefix(cmd.url), steps, body))
  }

  /** The `match args.command` of `main`, up to the point where the request is sent. */
  method Dispatch(cmd: Command, rules: HeaderMap.HeaderRules, read: FileReader) returns (r: Result<RequestSpec, Abort>)
    ensures r == Prepare(cmd, rules, read)
  {
    match cmd {
      case Get(url, headers) =>
        var u := Url.EnsureUrlPrefix(url);
        var m := HeaderMap.BuildHeaders(headers, rules);
        r := Success(RequestSpec(GET, u, [SetHeaders(m)], NoBody));
      case Post(_, _, _, _) =>
        r := BuildWithPayload(cmd, rules, read);
      case Put(_, _, _, _) =>
        r := BuildWithPayload(cmd, rules, read);
      case Delete(url, headers) =>
        var u := Url.EnsureUrlPrefix(url);
        var m := HeaderMap.BuildHeaders(headers, rules);
        r := Success(RequestSpec(DELETE, u, [SetHeaders(m)], NoBody));
    }
  }

  /** The POST and PUT arms: file upload, or the builder reassigned with a JSON body. */
  method BuildWithPayload(cmd: Command, rules: HeaderMap.HeaderRules, read: FileReader) returns (r: Result<RequestSpec, Abort>)
    requires cmd.TakesPayload()
    ensures r == Prepare(cmd, rules, read)
  {
    var verb := if cmd.Post? then POST else PUT;
    var url := Url.EnsureUrlPrefix(cmd.url);
    if cmd.file.Some? {
      var path := cmd.file.value;
      var content := read(path);
      if content.Failure? {
        return Failure(FileUnreadable(path, content.error));
      }
      var m := HeaderMap.BuildHeaders(cmd.headers, rules);
      r := Success(RequestSpec(verb, url, [SetHeaders(m)], File(FilePart, content.value)));
    } else {
      var m := HeaderMap.BuildHeaders(cmd.headers, rules);
      var req := RequestSpec(verb, url, [SetHeaders(m)], NoBody);
      if cmd.data.Some? {
        req := req.(steps := req.steps + [SetHeader(ContentType, ApplicationJson)], body := Raw(cmd.data.value));
        assert req.steps == [SetHeaders(m), SetHeader(ContentType, ApplicationJson)];
      }
      r := Success(req);
    }
  }

  /** GET and DELETE never carry a body and add no header of their own. */
  lemma BodylessVerbs(cmd: Command, rules: HeaderMap.HeaderRules, read: FileReader)
    requires cmd.Get? || cmd.Delete?
    ensures Prepare(cmd, rules, read).Success?
    ensures Prepare(cmd, rules, read).value.body == NoBody
    ensures Prepare(cmd, rules, read).value.steps == [SetHeaders(HeaderMap.HeaderMapOf(cmd.headers, rules))]
  {
  }

  /** POST/PUT with a file: the body is the file's bytes under part "file", and `-d` data is ignored. */
  lemma FileTakesPrecedence(cmd: Command, rules: HeaderMap.HeaderRules, read: FileReader, other: Option<string>)
    requires cmd.TakesPayload() && cmd.file.Some? && read(cmd.file.value).Success?
    ensures Prepare(cmd, rules, read).Success?
    ensures Prepare(cmd, rules, read).value.body == File(FilePart, read(cmd.file.value).value)
    ensures Prepare(cmd, rules, read).value.steps == [SetHeaders(HeaderMap.HeaderMapOf(cmd.headers, rules))]
    ensures Prepare(cmd.(data := other), rules, read) == Prepare(cmd, rules, read)
  {
  }

  /**
    POST/PUT with data and no file: the body is the data, and the JSON
    Content-Type is the last header step, after the user's headers.
   */
  lemma DataBecomesJsonBody(cmd: Command, rules: HeaderMap.HeaderRules, read: FileReader)
    requires cmd.TakesPayload() && cmd.file.None? && cmd.data.Some?
    ensures Prepare(cmd, rules, read).Success?
    ensures Prepare(cmd, rules, read).value.body == Raw(cmd.data.value)
    ensures Prepare(cmd, rules, read).value.steps
         == [SetHeaders(HeaderMap.HeaderMapOf(cmd.headers, rules)), SetHeader(ContentType, ApplicationJson)]
  {
  }

  /** POST/PUT with neither data nor file sends no body. */
  lemma NoPayloadNoBody(cmd: Command, rules: HeaderMap.HeaderRules, read: FileReader)
    requires cmd.TakesPayload() && cmd.file.None? && cmd.data.None?
    ensures Prepare(cmd, rules, read) == Success(RequestSpec(VerbOf(cmd), Url.EnsureUrlPrefix(cmd.url),
                                                             [SetHeaders(HeaderMap.HeaderMapOf(cmd.headers, rules))], NoBody))
  {
  }
}
