/** The parts of java.net.http's requests and responses the client looks at. */
module Http {
  import opened Wrappers

  /** HttpRequest.BodyPublisher: none at all, noBody(), or ofString(text). */
  datatype BodyPublisher = Absent | NoBody | OfString(text: string)

  /** HttpClient.Version, when the request fixes one. */
  datatype Version = Http1_1 | Http2

  /** The method is called verb here: method is a Dafny keyword. */
  datatype HttpRequest = HttpRequest(
    uri: string,
    verb: string,
    body: BodyPublisher,
    headers: seq<(string, string)>,
    timeout: Option<int>,
    version: Option<Version>,
    expectContinue: bool)

  datatype HttpResponse = HttpResponse(status: int, body: Option<string>)
}
