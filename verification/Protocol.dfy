/** Values that cross the tunnel, and the two usual wrappers. */
module Protocol {

  datatype Option<+T> = None | Some(value: T)

  datatype Result<+R, +E> = Ok(value: R) | Err(error: E)

  type Byte = b: int | 0 <= b < 256

  type Bytes = seq<Byte>

  // A conversation id: uuid.NewString never repeats, so only equality matters.
  type Uuid = string

  type UserId = int

  datatype HttpRequestData = HttpRequestData(
    headers: map<string, string>,
    verb: string,
    path: string,
    content: Bytes,
    contentHeaders: map<string, string>)

  datatype HttpResponseData = HttpResponseData(
    statusCode: int,
    content: Bytes,
    contentHeaders: map<string, string>,
    headers: map<string, string>)

  // One row of the portal's recent-requests table.
  datatype LiveRequest = LiveRequest(time: int, verb: string, path: string, status: int)
}
