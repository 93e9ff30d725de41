/** Values shared by every part of the model: Python's None-or-value and the
    outcome of a call into a service the model cannot see (HTTP, Telegram). */
module Common {

  /** A value that may be Python's None. */
  datatype Option<+T> = None | Some(value: T)

  /** What an HTTP request produced: an exception raised by the client
      (connection error, timeout, undecodable body) or a status and a body. */
  datatype Outcome<+T> = Raised | Response(status: int, body: T)

  /** A text message handed to the Telegram transport, addressed to a chat. */
  datatype Message = Message(chatId: int, text: string)

  /** No value occurs twice in s. */
  predicate Distinct(s: seq<int>)
  {
    forall k, l :: 0 <= k < l < |s| ==> s[k] != s[l]
  }

  /** A set that is not empty has an element. */
  lemma NonEmptyHasElement(s: set<int>)
    requires s != {}
    ensures exists x :: x in s
  {
    if forall x :: x !in s {
      assert false;
    }
  }
}
