/**
 * The EL `empty` operator (and its inverted form `not empty`): the abstract AST node
 * whose value is a Boolean telling whether its only child evaluates to an empty value.
 */
module ElEmpty {

  /**
   * The runtime value a child node evaluates to, by the Java type tests the operator
   * makes: null, a String, an Object[], a Collection, a Map, or anything else.
   */
  datatype Value =
    | Null
    | Str(chars: string)
    | Arr(length: nat)
    | Coll(size: nat)
    | MapV(size: nat)
    | Bool(b: bool)
    | Num(n: int)
    | Other

  /** The Java classes `getType` can report. */
  datatype ValueType = BooleanType | OtherType

  function TypeOf(v: Value): ValueType {
    if v.Bool? then BooleanType else OtherType
  }

  /** Emptiness as the operator's documentation defines it. */
  predicate IsEmpty(v: Value) {
    match v
    case Null => true
    case Str(s) => s == ""
    case Arr(n) => n == 0
    case Coll(n) => n == 0
    case MapV(n) => n == 0
    case _ => false
  }

  /** The node, reduced to the two constants its constructor chooses. */
  datatype EmptyNode = EmptyNode(returnEmpty: bool, returnNotEmpty: bool)

  /** The constructor: `invert` swaps the two answers. */
  function NewEmptyNode(invert: bool): (node: EmptyNode)
    ensures node.returnEmpty == !invert
    ensures node.returnNotEmpty != node.returnEmpty
  {
    if invert then EmptyNode(false, true) else EmptyNode(true, false)
  }

  /** `getType`: always `Boolean`, whatever the child. */
  function GetType(node: EmptyNode): (t: ValueType)
    ensures t == TypeOf(GetValue(node, Null))
  {
    BooleanType
  }

  /** `getValue`, given the value the child evaluated to. */
  function GetValue(node: EmptyNode, child: Value): (r: Value)
    ensures r.Bool?
  {
    if child == Null || (child.Str? && |child.chars| == 0) || (child.Arr? && child.length == 0)
      || (child.Coll? && child.size == 0) || (child.MapV? && child.size == 0)
    then Bool(node.returnEmpty)
    else Bool(node.returnNotEmpty)
  }

  /** `empty x` is true exactly for the empty values. */
  lemma EmptyOperator(child: Value)
    ensures GetValue(NewEmptyNode(false), child) == Bool(IsEmpty(child))
  {
  }

  /** `not empty x` is the negation of `empty x` for every child value. */
  lemma NotEmptyIsNegation(child: Value)
    ensures GetValue(NewEmptyNode(true), child).b == !GetValue(NewEmptyNode(false), child).b
  {
  }

  /** An empty and a non-empty child never give the same answer, inverted or not. */
  lemma EmptyAndNonEmptyDiffer(invert: bool, e: Value, ne: Value)
    requires IsEmpty(e) && !IsEmpty(ne)
    ensures GetValue(NewEmptyNode(invert), e) != GetValue(NewEmptyNode(invert), ne)
  {
  }

  /** Values of other kinds, numbers and Booleans included, never count as empty. */
  lemma OtherKindsNotEmpty(invert: bool, child: Value)
    requires child.Bool? || child.Num? || child.Other?
    ensures GetValue(NewEmptyNode(invert), child) == Bool(invert)
  {
  }

  /** The value always has the type `getType` announces. */
  lemma ValueHasAnnouncedType(node: EmptyNode, child: Value)
    ensures TypeOf(GetValue(node, child)) == GetType(node)
  {
  }
}
