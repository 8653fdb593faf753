// Small types shared by all parts of the model.
module Wrappers {

  // A value or nothing: Go's zero value beside a false flag, or a nil error.
  datatype Option<+T> = None | Some(value: T)

  // The text of an error or of a message body; only its identity matters here.
  datatype Message = Message(text: string)
}
