/** extractConstraints: the constraint labels of one column definition. */
module Constraints {
  import opened Schema

  const PK_LABEL := "PK"
  const NOT_NULL_LABEL := "NOT NULL"
  const UNIQUE_LABEL := "UNIQUE"
  const DEFAULT_PREFIX := "DEFAULT "

  predicate IsDefaultLabel(text: string) {
    |text| >= |DEFAULT_PREFIX| && text[..|DEFAULT_PREFIX|] == DEFAULT_PREFIX
  }

  /** Where a text stands in the fixed order PK, NOT NULL, UNIQUE, DEFAULT; 4 for any other text. */
  function Rank(text: string): nat {
    if text == PK_LABEL then 0
    else if text == NOT_NULL_LABEL then 1
    else if text == UNIQUE_LABEL then 2
    else if IsDefaultLabel(text) then 3
    else 4
  }

  /** The text for a `DEFAULT` clause, whatever the value: a label of the last rank, whose
      value reads back after the prefix. */
  function DefaultLabel(value: string): (text: string)
    ensures IsDefaultLabel(text) && Rank(text) == 3
    ensures text[|DEFAULT_PREFIX|..] == value
  {
    var text := DEFAULT_PREFIX + value;
    assert text[..|DEFAULT_PREFIX|] == DEFAULT_PREFIX;
    assert text != PK_LABEL && text != NOT_NULL_LABEL && text != UNIQUE_LABEL by {
      assert PK_LABEL[0] != 'D' && NOT_NULL_LABEL[0] != 'D' && UNIQUE_LABEL[0] != 'D';
    }
    text
  }

  /** The labels a column should carry, as a set: one per flag that is set. */
  function FlagLabels(spec: ColumnSpec): set<string> {
    (if spec.primaryKey then {PK_LABEL} else {})
    + (if spec.notNull then {NOT_NULL_LABEL} else {})
    + (if spec.unique then {UNIQUE_LABEL} else {})
    + (if spec.defaultVal.Some? then {DefaultLabel(spec.defaultVal.value)} else {})
  }

  predicate NoFlagSet(spec: ColumnSpec) {
    !spec.primaryKey && !spec.notNull && !spec.unique && spec.defaultVal.None?
  }

  /** Strictly increasing rank: the labels keep the fixed order and none repeats. */
  predicate StrictlyRanked(labels: seq<string>) {
    forall i, j :: 0 <= i < j < |labels| ==> Rank(labels[i]) < Rank(labels[j])
  }

  /** The independent description of a correct text list: exactly the labels of the set
      flags, in the fixed order. */
  ghost predicate Describes(spec: ColumnSpec, labels: seq<string>) {
    StrictlyRanked(labels) && (forall l :: l in labels <==> l in FlagLabels(spec))
  }

  /** The list extractConstraints builds, as a value (used by the extractor's pure part). */
  function ConstraintLabels(spec: ColumnSpec): seq<string> {
    (if spec.primaryKey then [PK_LABEL] else [])
    + (if spec.notNull then [NOT_NULL_LABEL] else [])
    + (if spec.unique then [UNIQUE_LABEL] else [])
    + (if spec.defaultVal.Some? then [DefaultLabel(spec.defaultVal.value)] else [])
  }

  /** extractConstraints, pushing one text per flag that is set. */
  method ExtractConstraints(columnDef: ColumnSpec) returns (constraints: seq<string>)
    ensures constraints == ConstraintLabels(columnDef)
    ensures Describes(columnDef, constraints)
  {
    constraints := [];
    if columnDef.primaryKey {
      constraints := constraints + [PK_LABEL];
    }
    if columnDef.notNull {
      constraints := constraints + [NOT_NULL_LABEL];
    }
    if columnDef.unique {
      constraints := constraints + [UNIQUE_LABEL];
    }
    if columnDef.defaultVal.Some? {
      constraints := constraints + [DefaultLabel(columnDef.defaultVal.value)];
    }
    ConstraintLabelsDescribe(columnDef);
  }

  /** The built list is the ordered list of the set flags' labels. */
  lemma ConstraintLabelsDescribe(spec: ColumnSpec)
    ensures Describes(spec, ConstraintLabels(spec))
  {
    var labels := ConstraintLabels(spec);
    assert Rank(PK_LABEL) == 0 && Rank(NOT_NULL_LABEL) == 1 && Rank(UNIQUE_LABEL) == 2;
  }

  /** In a strictly ranked list the head has the least rank, and the tail holds every other element. */
  lemma HeadIsLeast(a: seq<string>, x: string)
    requires StrictlyRanked(a) && x in a
    ensures Rank(a[0]) <= Rank(x)
    ensures x != a[0] ==> Rank(a[0]) < Rank(x)
    ensures x in a[1..] <==> x != a[0]
  {
    var k :| 0 <= k < |a| && a[k] == x;
    if k != 0 {
      assert a[1..][k - 1] == x;
    }
  }

  /** Two strictly ranked lists with the same elements are the same list. */
  lemma {:induction false} StrictlyRankedUnique(a: seq<string>, b: seq<string>)
    requires StrictlyRanked(a) && StrictlyRanked(b)
    requires forall l :: l in a <==> l in b
    ensures a == b
  {
    assert a == [] <==> b == [] by {
      if a != [] { assert a[0] in b; }
      if b != [] { assert b[0] in a; }
    }
    if a != [] {
      HeadIsLeast(a, b[0]);
      HeadIsLeast(b, a[0]);
      assert a[0] == b[0];
      forall l ensures l in a[1..] <==> l in b[1..] {
        if l in a[1..] || l in b[1..] {
          assert l in a && l in b;
          HeadIsLeast(a, l);
          HeadIsLeast(b, l);
        }
      }
      StrictlyRankedUnique(a[1..], b[1..]);
      assert a == [a[0]] + a[1..] && b == [b[0]] + b[1..];
    }
  }

  /** The description determines the list: any list of the set flags' labels in the fixed
      order is the one extractConstraints builds. */
  lemma DescribesOnlyConstraintLabels(spec: ColumnSpec, labels: seq<string>)
    requires Describes(spec, labels)
    ensures labels == ConstraintLabels(spec)
  {
    ConstraintLabelsDescribe(spec);
    StrictlyRankedUnique(labels, ConstraintLabels(spec));
  }

  /** Each text is present iff its flag is set, and the DEFAULT text is the prefix and the
      default's text; at most four labels; none at all iff no flag is set. */
  lemma ConstraintLabelsPresence(spec: ColumnSpec)
    ensures PK_LABEL in ConstraintLabels(spec) <==> spec.primaryKey
    ensures NOT_NULL_LABEL in ConstraintLabels(spec) <==> spec.notNull
    ensures UNIQUE_LABEL in ConstraintLabels(spec) <==> spec.unique
    ensures (exists l :: l in ConstraintLabels(spec) && IsDefaultLabel(l)) <==> spec.defaultVal.Some?
    ensures spec.defaultVal.Some? ==> DEFAULT_PREFIX + spec.defaultVal.value in ConstraintLabels(spec)
    ensures |ConstraintLabels(spec)| <= 4
    ensures ConstraintLabels(spec) == [] <==> NoFlagSet(spec)
  {
    ConstraintLabelsDescribe(spec);
    var labels := ConstraintLabels(spec);
    assert !IsDefaultLabel(PK_LABEL) && !IsDefaultLabel(NOT_NULL_LABEL) && !IsDefaultLabel(UNIQUE_LABEL) by {
      assert NOT_NULL_LABEL[0] != DEFAULT_PREFIX[0] && UNIQUE_LABEL[0] != DEFAULT_PREFIX[0];
    }
    if spec.defaultVal.Some? {
      assert IsDefaultLabel(DefaultLabel(spec.defaultVal.value));
    }
  }
}
