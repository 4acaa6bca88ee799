/** The two pure helpers of the library's util module. */
module Util {
  import opened Values

  /** Convert an error to a string: null for a falsy error, otherwise its stack,
      else its message, else its own `toString()`. */
  function ErrorToString(error: Value): (r: Option<string>)
    ensures r.None? <==> !Truthy(error)
    ensures Truthy(error) && Truthy(Prop(error, "stack")) ==>
              r == Some(JsString(Prop(error, "stack")))
    ensures Truthy(error) && !Truthy(Prop(error, "stack")) && Truthy(Prop(error, "message")) ==>
              r == Some(JsString(Prop(error, "message")))
    ensures Truthy(error) && !Truthy(Prop(error, "stack")) && !Truthy(Prop(error, "message")) ==>
              r == Some(JsString(error))
  {
    if !Truthy(error) then None
    else if Truthy(Prop(error, "stack")) then Some(JsString(Prop(error, "stack")))
    else if Truthy(Prop(error, "message")) then Some(JsString(Prop(error, "message")))
    else Some(JsString(error))
  }

  /** Once a truthy stack is present, neither the message nor the object's own
      text can influence the result. */
  lemma StackWins(props: map<string, Value>, isError: bool, text: string, message: Value, text': string)
    requires "stack" in props && Truthy(props["stack"])
    ensures ErrorToString(Obj(props, isError, text))
         == ErrorToString(Obj(props["message" := message], isError, text'))
         == Some(JsString(props["stack"]))
  {
    assert Prop(Obj(props["message" := message], isError, text'), "stack") == props["stack"];
  }

  /** An error built from a message alone (no stack) prints as that message. */
  lemma MessageWithoutStack(what: string)
    requires what != ""
    ensures ErrorToString(MakeError(what)) == Some(what)
  {
  }

  /** A primitive thrown value has no stack and no message: it prints as itself. */
  lemma PrimitiveError(v: Value)
    requires !v.Obj? && Truthy(v)
    ensures ErrorToString(v) == Some(JsString(v))
  {
  }

  /** `ensureArray`: an array is returned as it is, anything else is wrapped in a
      one-element array. */
  function EnsureArray(v: Value): (r: Value)
    ensures r.Arr?
    ensures v.Arr? ==> r == v
    ensures !v.Arr? ==> r.elems == [v]
  {
    if v.Arr? then v else Arr([v])
  }

  /** Applying `ensureArray` twice is the same as applying it once, and the
      argument is always recoverable from the result. */
  lemma EnsureArrayIdempotent(v: Value)
    ensures EnsureArray(EnsureArray(v)) == EnsureArray(v)
    ensures v == (if v.Arr? then EnsureArray(v) else EnsureArray(v).elems[0])
  {
  }
}
