/** The operation lookup of `scientific_calc` in tools/calculator.py: the
    name is lower-cased and looked up in a table of six functions; a name the
    table lacks is reported with the name as the caller wrote it. Applying
    the functions themselves is not part of this model. */
module SciOps {
  import opened Wrappers

  datatype Operation = Sin | Cos | Tan | Log | Sqrt | Pow
  {
    /** The table key of the operation. */
    function Name(): string
    {
      match this
      case Sin => "sin"
      case Cos => "cos"
      case Tan => "tan"
      case Log => "log"
      case Sqrt => "sqrt"
      case Pow => "pow"
    }
  }

  /** An ASCII capital letter. */
  predicate IsCapital(c: char)
  {
    'A' <= c <= 'Z'
  }

  /** `c.lower()` for one character, on the ASCII letters. */
  function LowerChar(c: char): char
  {
    if 'A' <= c <= 'Z' then (c as int - 'A' as int + 'a' as int) as char else c
  }

  /** `s.lower()`, restricted to ASCII case mapping. */
  function Lower(s: string): (r: string)
    ensures |r| == |s|
    ensures forall i :: 0 <= i < |r| ==> !IsCapital(r[i])
    ensures forall i :: 0 <= i < |s| && !IsCapital(s[i]) ==> r[i] == s[i]
    ensures forall i :: 0 <= i < |s| && IsCapital(s[i]) ==> r[i] as int == s[i] as int + 32
    ensures r == s <==> forall i :: 0 <= i < |s| ==> !IsCapital(s[i])
  {
    seq(|s|, i requires 0 <= i < |s| => LowerChar(s[i]))
  }

  /** The `OPERATIONS` table. */
  function Table(key: string): Option<Operation>
  {
    if key == "sin" then Some(Sin)
    else if key == "cos" then Some(Cos)
    else if key == "tan" then Some(Tan)
    else if key == "log" then Some(Log)
    else if key == "sqrt" then Some(Sqrt)
    else if key == "pow" then Some(Pow)
    else None
  }

  /** `OPERATIONS[operation.lower()]`, with the `KeyError` turned into the
      tool's error text. */
  function Lookup(operation: string): (r: Result<Operation, string>)
    ensures r.Success? ==> r.value.Name() == Lower(operation)
    ensures r.Failure? ==> r.error == "不支持的操作: " + operation
    ensures r.Failure? <==> forall op: Operation :: op.Name() != Lower(operation)
  {
    match Table(Lower(operation))
    case Some(op) => Success(op)
    case None => Failure("不支持的操作: " + operation)
  }

  /** Lower-casing is idempotent. */
  lemma LowerIdempotent(s: string)
    ensures Lower(Lower(s)) == Lower(s)
  {
  }

  /** The lookup ignores case: names that agree after lower-casing select the
      same operation, or both fail. */
  lemma LookupIgnoresCase(a: string, b: string)
    requires Lower(a) == Lower(b)
    ensures Lookup(a).Success? <==> Lookup(b).Success?
    ensures Lookup(a).Success? ==> Lookup(a).value == Lookup(b).value
  {
  }

  /** Every operation is found under its own name, in any case. */
  lemma LookupByName(op: Operation, spelling: string)
    requires Lower(spelling) == op.Name()
    ensures Lookup(spelling) == Success(op)
  {
  }

  /** "SQRT" is found; "exp" is not. */
  lemma LookupExamples()
    ensures Lookup("SQRT") == Success(Sqrt)
    ensures Lookup("exp") == Failure("不支持的操作: exp")
  {
    assert Lower("SQRT") == "sqrt";
    assert Lower("exp") == "exp";
    assert "不支持的操作: " + "exp" == "不支持的操作: exp";
  }
}
