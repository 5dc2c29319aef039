/** The messages of the daemon protocol, after JSON decoding. JSON texts are strings. */
module JsonRpc {
  import opened Basics

  datatype Id = Null | Number(n: nat) | Other(text: string)

  /** A line to the daemon: not a JSON object of the right shape, or a message to the method `name`. */
  datatype Line = Garbage | Message(version: string, id: Option<Id>, name: string, params: string)

  datatype Body = Result(value: string) | Failure(code: int)

  /** A line from the daemon. With a method it is a notification, whatever else it holds. */
  datatype Inbound = Junk | Notice(name: string, params: string) | Reply(id: Option<Id>, body: Body)
}
