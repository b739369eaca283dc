/** The plugin's side of the HTTP exchange (`api_request` in src/bin/plugin/rpc.rs):
    printing a request and splitting the answer. */
module Rpc {
  import opened Wrappers
  import opened Strings
  import opened Utf8
  import Decimal

  const MAX_RPC_RESPONSE_SIZE := 1024 * 1024
  const SEPARATOR: seq<Byte> := [13, 10, 13, 10]

  /** Lines with their line ends. */
  function LinesText(lines: seq<string>): string {
    if lines == [] then "" else lines[0] + "\r\n" + LinesText(lines[1..])
  }

  function HeaderLines(verb: string, path: string, authority: string, token: string, length: nat): seq<string> {
    [verb + " " + path + " " + "HTTP/1.1",
     "Host" + ": " + authority,
     "Authorization" + ": " + ("Bearer " + token),
     "Content-Type" + ": " + "application/json",
     "Content-Length" + ": " + Decimal.Print(length),
     "Connection" + ": " + "close"]
  }

  /** What is written to the companion. */
  function RequestBytes(verb: string, path: string, authority: string, token: string, body: seq<Byte>): seq<Byte> {
    Encode(LinesText(HeaderLines(verb, path, authority, token, |body|)) + "\r\n") + body
  }

  datatype RpcError =
    | ResponseTooLarge
    | InvalidResponse
    | InvalidStatus
    | Returned(status: nat, body: seq<Byte>)

  /** `lines().next()`: up to the first line feed, without a carriage return before it. */
  function FirstLine(text: string): string {
    match Find(text, "\n")
    case None => text
    case Some(i) => if i > 0 && text[i - 1] == '\r' then text[..i - 1] else text[..i]
  }

  /** `from_utf8_lossy` returns valid text as it is. */
  ghost predicate Faithful(lossy: seq<Byte> -> string) {
    forall text :: lossy(Encode(text)) == text
  }

  function StatusOf(headers: string): Option<nat> {
    var words := Words(FirstLine(headers));
    if |words| < 2 then None else Decimal.ParseUnsigned(words[1], 0xffff)
  }

  /** From the bytes of the answer to its body, or to the reported failure. */
  function SplitResponse(response: seq<Byte>, lossy: seq<Byte> -> string): Result<seq<Byte>, RpcError> {
    if |response| > MAX_RPC_RESPONSE_SIZE then Err(ResponseTooLarge)
    else match Find(response, SEPARATOR)
      case None => Err(InvalidResponse)
      case Some(i) =>
        match StatusOf(lossy(response[..i]))
        case None => Err(InvalidStatus)
        case Some(status) =>
          if 200 <= status < 300 then Ok(response[i + 4..]) else Err(Returned(status, response[i + 4..]))
  }
}
