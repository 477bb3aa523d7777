/** The `len` builtin of src/builtins.ts. */
module Builtins {
  import opened Objects
  import Text

  /**
   * `len`: the length of its one string argument; every failure is an
   * error value, never an exception.
   */
  function Len(args: seq<Obj>): (r: Obj)
    ensures |args| != 1 ==> r == ErrorObj("wrong number of arguments. got=" + Text.NatToString(|args|) + ", want=1")
    ensures |args| == 1 && args[0].StringObj? ==> r == IntegerObj(|args[0].strValue|)
    ensures |args| == 1 && !args[0].StringObj? ==>
      r == ErrorObj("argument to `len` not supported, got " + TypeName(args[0]))
    ensures r.IntegerObj? || r.ErrorObj?
  {
    if |args| != 1 then ErrorObj("wrong number of arguments. got=" + Text.NatToString(|args|) + ", want=1")
    else if args[0].StringObj? then IntegerObj(|args[0].strValue|)
    else ErrorObj("argument to `len` not supported, got " + TypeName(args[0]))
  }

  /** The builtin answers with a length exactly when it is given one string. */
  lemma LenSucceedsExactlyOnOneString(args: seq<Obj>)
    ensures Len(args).IntegerObj? <==> |args| == 1 && args[0].StringObj?
    ensures Len(args).IntegerObj? ==> Len(args).intValue >= 0
  {
  }
}
