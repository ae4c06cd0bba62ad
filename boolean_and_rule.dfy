/** The analysis rule that reports operands of `&&` whose truth value is
    fixed.  The rule is generic over the analyser's scope and expression
    representations; the two facilities it consumes are passed in as
    functions:
    - `booleanType(scope, expr)`: the boolean type of an expression in a
      scope (a constant boolean when its truth value is fixed);
    - `filterByTruthyValue(scope, expr)`: the scope narrowed by the
      assumption that `expr` was truthy. */
module BooleanAndConstantCondition {
  import opened Types

  /** A `&&` expression node. */
  datatype BooleanAnd<Expr> = BooleanAnd(left: Expr, right: Expr)

  function TruthWord(value: bool): string {
    if value then "true" else "false"
  }

  function LeftMessage(value: bool): string {
    "Left side of && is always " + TruthWord(value) + "."
  }

  function RightMessage(value: bool): string {
    "Right side of && is always " + TruthWord(value) + "."
  }

  /** The left operand's boolean type, in the scope of the node. */
  function LeftType<Scope, Expr>(node: BooleanAnd<Expr>, scope: Scope, booleanType: (Scope, Expr) -> Type): Type {
    booleanType(scope, node.left)
  }

  /** The right operand's boolean type, in the scope narrowed by the left
      operand being truthy (`&&` short-circuits). */
  function RightType<Scope, Expr>(node: BooleanAnd<Expr>, scope: Scope, booleanType: (Scope, Expr) -> Type,
                                  filterByTruthyValue: (Scope, Expr) -> Scope): Type {
    booleanType(filterByTruthyValue(scope, node.left), node.right)
  }

  /** The messages the rule reports for a node: a left message when the
      left type is a constant boolean, then a right message when the
      narrowed right type is one. */
  function ExpectedMessages<Scope, Expr>(node: BooleanAnd<Expr>, scope: Scope, booleanType: (Scope, Expr) -> Type,
                                         filterByTruthyValue: (Scope, Expr) -> Scope): seq<string> {
    var l := LeftType(node, scope, booleanType);
    var r := RightType(node, scope, booleanType, filterByTruthyValue);
    (if l.ConstantBooleanT? then [LeftMessage(l.value)] else []) +
    (if r.ConstantBooleanT? then [RightMessage(r.value)] else [])
  }

  /** `processNode`: builds the message list by two conditional appends. */
  method ProcessNode<Scope, Expr>(node: BooleanAnd<Expr>, scope: Scope, booleanType: (Scope, Expr) -> Type,
                                  filterByTruthyValue: (Scope, Expr) -> Scope)
    returns (messages: seq<string>)
    ensures messages == ExpectedMessages(node, scope, booleanType, filterByTruthyValue)
  {
    messages := [];
    var leftType := booleanType(scope, node.left);
    if leftType.ConstantBooleanT? {
      messages := messages + [LeftMessage(leftType.value)];
    }

    var rightType := booleanType(filterByTruthyValue(scope, node.left), node.right);
    if rightType.ConstantBooleanT? {
      messages := messages + [RightMessage(rightType.value)];
    }
  }

  // ---------------------------------------------------------------------
  // properties of the reported messages

  predicate IsLeftMessage(m: string) {
    m == LeftMessage(true) || m == LeftMessage(false)
  }

  predicate IsRightMessage(m: string) {
    m == RightMessage(true) || m == RightMessage(false)
  }

  /** The four message texts, written out. */
  lemma MessageTexts()
    ensures LeftMessage(true) == "Left side of && is always true."
    ensures LeftMessage(false) == "Left side of && is always false."
    ensures RightMessage(true) == "Right side of && is always true."
    ensures RightMessage(false) == "Right side of && is always false."
  {
  }

  lemma MessageInitials(value: bool)
    ensures |LeftMessage(value)| > 0 && LeftMessage(value)[0] == 'L'
    ensures |RightMessage(value)| > 0 && RightMessage(value)[0] == 'R'
  {
  }

  /** No text is both a left and a right message. */
  lemma LeftAndRightMessagesDiffer(m: string)
    ensures !(IsLeftMessage(m) && IsRightMessage(m))
  {
    MessageInitials(true);
    MessageInitials(false);
  }

  /** At most two messages, every left message before every right message,
      and nothing else. */
  lemma MessagesCountAndOrder<Scope, Expr>(node: BooleanAnd<Expr>, scope: Scope, booleanType: (Scope, Expr) -> Type,
                                           filterByTruthyValue: (Scope, Expr) -> Scope)
    ensures var ms := ExpectedMessages(node, scope, booleanType, filterByTruthyValue);
            && |ms| <= 2
            && (forall i :: 0 <= i < |ms| ==> IsLeftMessage(ms[i]) || IsRightMessage(ms[i]))
            && (forall i, j :: 0 <= i < j < |ms| ==> IsLeftMessage(ms[i]) && IsRightMessage(ms[j]))
  {
    var l := LeftType(node, scope, booleanType);
    var r := RightType(node, scope, booleanType, filterByTruthyValue);
    var lefts: seq<string> := if l.ConstantBooleanT? then [LeftMessage(l.value)] else [];
    var rights: seq<string> := if r.ConstantBooleanT? then [RightMessage(r.value)] else [];
    assert ExpectedMessages(node, scope, booleanType, filterByTruthyValue) == lefts + rights;
    assert forall i :: 0 <= i < |lefts| ==> IsLeftMessage(lefts[i]);
    assert forall i :: 0 <= i < |rights| ==> IsRightMessage(rights[i]);
  }

  /** A left message is reported exactly when the left type in the node's
      scope is a constant boolean, and it names that constant. */
  lemma LeftMessageIff<Scope, Expr>(node: BooleanAnd<Expr>, scope: Scope, booleanType: (Scope, Expr) -> Type,
                                    filterByTruthyValue: (Scope, Expr) -> Scope)
    ensures var ms := ExpectedMessages(node, scope, booleanType, filterByTruthyValue);
            var l := booleanType(scope, node.left);
            && ((exists i :: 0 <= i < |ms| && IsLeftMessage(ms[i])) <==> l.ConstantBooleanT?)
            && (l.ConstantBooleanT? ==> ms[0] == LeftMessage(l.value))
  {
    var ms := ExpectedMessages(node, scope, booleanType, filterByTruthyValue);
    if !booleanType(scope, node.left).ConstantBooleanT? {
      forall i | 0 <= i < |ms| ensures !IsLeftMessage(ms[i]) {
        LeftAndRightMessagesDiffer(ms[i]);
      }
    } else {
      assert IsLeftMessage(ms[0]);
    }
  }

  /** A right message is reported exactly when the right type, computed in
      the scope narrowed by the left operand, is a constant boolean, and it
      names that constant and comes last. */
  lemma RightMessageIff<Scope, Expr>(node: BooleanAnd<Expr>, scope: Scope, booleanType: (Scope, Expr) -> Type,
                                     filterByTruthyValue: (Scope, Expr) -> Scope)
    ensures var ms := ExpectedMessages(node, scope, booleanType, filterByTruthyValue);
            var r := booleanType(filterByTruthyValue(scope, node.left), node.right);
            && ((exists i :: 0 <= i < |ms| && IsRightMessage(ms[i])) <==> r.ConstantBooleanT?)
            && (r.ConstantBooleanT? ==> ms[|ms| - 1] == RightMessage(r.value))
  {
    var ms := ExpectedMessages(node, scope, booleanType, filterByTruthyValue);
    if !booleanType(filterByTruthyValue(scope, node.left), node.right).ConstantBooleanT? {
      forall i | 0 <= i < |ms| ensures !IsRightMessage(ms[i]) {
        LeftAndRightMessagesDiffer(ms[i]);
      }
    } else {
      assert IsRightMessage(ms[|ms| - 1]);
    }
  }

  /** The right operand is judged in the narrowed scope only: its type in
      the node's own scope does not matter. */
  lemma RightSideUsesNarrowedScope<Scope, Expr>(node: BooleanAnd<Expr>, scope: Scope,
                                                booleanType: (Scope, Expr) -> Type, booleanType': (Scope, Expr) -> Type,
                                                filterByTruthyValue: (Scope, Expr) -> Scope)
    requires booleanType'(scope, node.left) == booleanType(scope, node.left)
    requires booleanType'(filterByTruthyValue(scope, node.left), node.right) ==
             booleanType(filterByTruthyValue(scope, node.left), node.right)
    ensures ExpectedMessages(node, scope, booleanType', filterByTruthyValue) ==
            ExpectedMessages(node, scope, booleanType, filterByTruthyValue)
  {
  }

  /** Without a constant boolean on either side nothing is reported. */
  lemma NoConstantsNoMessages<Scope, Expr>(node: BooleanAnd<Expr>, scope: Scope, booleanType: (Scope, Expr) -> Type,
                                           filterByTruthyValue: (Scope, Expr) -> Scope)
    ensures ExpectedMessages(node, scope, booleanType, filterByTruthyValue) == [] <==>
              !booleanType(scope, node.left).ConstantBooleanT? &&
              !booleanType(filterByTruthyValue(scope, node.left), node.right).ConstantBooleanT?
  {
  }

  /** `true && false`: the left side is the constant true, and narrowing by
      a truthy left side leaves the literal false on the right, so both
      messages are reported, left first. */
  lemma TrueAndFalseScenario<Scope, Expr>(node: BooleanAnd<Expr>, scope: Scope, booleanType: (Scope, Expr) -> Type,
                                          filterByTruthyValue: (Scope, Expr) -> Scope)
    requires booleanType(scope, node.left) == ConstantBooleanT(true)
    requires booleanType(filterByTruthyValue(scope, node.left), node.right) == ConstantBooleanT(false)
    ensures ExpectedMessages(node, scope, booleanType, filterByTruthyValue) ==
              ["Left side of && is always true.", "Right side of && is always false."]
  {
    MessageTexts();
  }
}
