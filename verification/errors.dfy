/** Exceptions, as the model sees them: a class and a message. */
module Errors {

  /** The exception classes the core raises or tells apart. */
  datatype ErrorKind =
    | RpcMessageProcessingException
    | RegisterException
    | NotFound          // amqp's NotFound: passive declaration of a queue that does not exist
    | KeyError
    | TypeError
    | JSONDecodeError
    | Exception         // the plain Exception of the client's allow-list guard
    | Raised(name: string)  // any other exception a collaborator raises

  datatype Error = Error(kind: ErrorKind, message: string)

  function KindName(k: ErrorKind): string {
    match k
    case RpcMessageProcessingException => "RpcMessageProcessingException"
    case RegisterException => "RegisterException"
    case NotFound => "NotFound"
    case KeyError => "KeyError"
    case TypeError => "TypeError"
    case JSONDecodeError => "JSONDecodeError"
    case Exception => "Exception"
    case Raised(name) => name
  }

  /** A Python string literal for `s`: double quotes when `s` holds a single quote
      and no double quote, single quotes otherwise. Escaping is not modelled. */
  function Quoted(s: string): string
  {
    if '\'' in s && '"' !in s then "\"" + s + "\"" else "'" + s + "'"
  }

  /** The literal is the text between two equal quote characters. Double quotes
      are chosen exactly when the text holds a single quote and no double quote,
      so the delimiter never occurs in the text unless the text holds both kinds. */
  lemma QuotedLiteral(s: string)
    ensures var q := Quoted(s);
      |q| == |s| + 2 && q[1..|q| - 1] == s && q[0] == q[|q| - 1] && (q[0] == '"' || q[0] == '\'')
    ensures Quoted(s)[0] == '"' <==> '\'' in s && '"' !in s
    ensures Quoted(s)[0] !in s || ('\'' in s && '"' in s)
  {
  }

  /** `repr(e)` of a one-argument exception: `Kind('message')`. */
  function Repr(e: Error): (r: string)
    ensures |r| == |KindName(e.kind)| + |e.message| + 4
    ensures r[..|KindName(e.kind)|] == KindName(e.kind)
    ensures r[|KindName(e.kind)|] == '(' && r[|r| - 1] == ')'
    ensures r[|KindName(e.kind)| + 1..|r| - 1] == Quoted(e.message)
  {
    KindName(e.kind) + "(" + Quoted(e.message) + ")"
  }

  /** The message sits verbatim inside the quotes of `repr(e)`. */
  lemma ReprInterior(e: Error)
    ensures var r := Repr(e);
      && |r| == |KindName(e.kind)| + |e.message| + 4
      && r[..|KindName(e.kind)|] == KindName(e.kind)
      && r[|KindName(e.kind)| + 2..|r| - 2] == e.message
  {
    var q := Quoted(e.message);
    assert q[1..|q| - 1] == e.message;
  }

  /** `repr` of the processor's missing-method exception picks single quotes. */
  lemma ReprOfMissingMethod()
    ensures Repr(Error(RpcMessageProcessingException, "Message body must contain method name"))
         == "RpcMessageProcessingException" + "(" + ("'" + "Message body must contain method name" + "'") + ")"
  {
    QuotedMissingMethod();
  }

  lemma QuotedMissingMethod()
    ensures Quoted("Message body must contain method name") == "'" + "Message body must contain method name" + "'"
  {
    NoQuoteInMissingMethod();
  }

  lemma NoQuoteInMissingMethod()
    ensures '\'' !in "Message body must contain method name"
  {
    var m := "Message body must contain method name";
    assert m == "Message" + " body" + " must" + " cont" + "ain" + " meth" + "od na" + "me";
  }
}
