/**
 * The declarative validation framework: per-field lists of atomic rules,
 * evaluated in full so that every failing (field, rule) pair is reported.
 */
module Validation {

  /** A property value as the validators see it; `Nil` is an absent value. */
  datatype Value = Nil | Text(text: string) | Flag(flag: bool) | Number(number: int)

  /** The atomic rules; `Guid` carries the `nilable` modifier, `Length` its maximum. */
  datatype Rule =
    | NotEmpty
    | DiasporaId
    | Boolean
    | Numeric
    | Guid(nilable: bool)
    | Length(maximum: nat)

  /**
   * The predicates behind the `diaspora_id`, `guid`, `boolean` and `numeric`
   * rules. Their implementations are not part of this model, so they are given.
   */
  datatype Checks = Checks(
    diasporaId: Value -> bool,
    guid: Value -> bool,
    boolean: Value -> bool,
    numeric: Value -> bool)

  /** What the guid rule is documented to demand: a string of at least 16 characters. */
  ghost predicate Documented(checks: Checks) {
    forall v :: checks.guid(v) ==> v.Text? && |v.text| >= 16
  }

  /** Whether `rule` accepts `v`; a nilable rule lets an absent value through. */
  predicate Holds(checks: Checks, rule: Rule, v: Value) {
    match rule
    case NotEmpty => v != Nil && v != Text("")
    case DiasporaId => checks.diasporaId(v)
    case Boolean => checks.boolean(v)
    case Numeric => checks.numeric(v)
    case Guid(nilable) => (nilable && v == Nil) || checks.guid(v)
    case Length(maximum) => v == Nil || (v.Text? && |v.text| <= maximum)
  }

  /** One `rule :field, ...` line of a validator. */
  datatype FieldRules = FieldRules(field: string, rules: seq<Rule>)

  /** One failing rule of one field, as reported in a validation error. */
  datatype FieldFailure = FieldFailure(field: string, rule: Rule)

  /** The failures of the rules of one field, in the order they are declared. */
  function RuleFailures(checks: Checks, field: string, rules: seq<Rule>, v: Value): (r: seq<FieldFailure>)
    ensures forall f :: f in r ==> f.field == field && f.rule in rules && !Holds(checks, f.rule, v)
    ensures forall rule :: rule in rules && !Holds(checks, rule, v) ==> FieldFailure(field, rule) in r
  {
    if rules == [] then []
    else
      (if Holds(checks, rules[0], v) then [] else [FieldFailure(field, rules[0])])
      + RuleFailures(checks, field, rules[1..], v)
  }

  /**
   * Every failing (field, rule) pair of a validator table, in table order:
   * each reported failure is real, and no failure is left out.
   */
  function Failures(checks: Checks, table: seq<FieldRules>, get: string -> Value): (r: seq<FieldFailure>)
    ensures forall f :: f in r ==> !Holds(checks, f.rule, get(f.field))
    ensures forall i, j ::
              (0 <= i < |table| && 0 <= j < |table[i].rules| &&
               !Holds(checks, table[i].rules[j], get(table[i].field)))
              ==> FieldFailure(table[i].field, table[i].rules[j]) in r
  {
    if table == [] then []
    else
      var head := RuleFailures(checks, table[0].field, table[0].rules, get(table[0].field));
      var rest := Failures(checks, table[1..], get);
      assert forall i, j ::
               (1 <= i < |table| && 0 <= j < |table[i].rules|)
               ==> table[i].rules[j] == table[1..][i - 1].rules[j];
      head + rest
  }

  /** A table passes exactly when every rule of every field holds. */
  lemma {:induction false} FailuresEmptyIff(checks: Checks, table: seq<FieldRules>, get: string -> Value)
    ensures Failures(checks, table, get) == [] <==>
      forall i, j ::
        (0 <= i < |table| && 0 <= j < |table[i].rules|)
        ==> Holds(checks, table[i].rules[j], get(table[i].field))
  {
    var r := Failures(checks, table, get);
    if r != [] {
      assert r[0] in r;
      var f := r[0];
      assert !Holds(checks, f.rule, get(f.field));
      // A reported failure comes from some declared rule.
      FailureIsDeclared(checks, table, get, f);
    }
  }

  /** Every reported failure names a rule declared for its field. */
  lemma {:induction false} FailureIsDeclared(checks: Checks, table: seq<FieldRules>, get: string -> Value, f: FieldFailure)
    requires f in Failures(checks, table, get)
    ensures exists i, j ::
              && 0 <= i < |table| && 0 <= j < |table[i].rules|
              && table[i].field == f.field && table[i].rules[j] == f.rule
  {
    if table != [] {
      var head := RuleFailures(checks, table[0].field, table[0].rules, get(table[0].field));
      if f in head {
        var j :| 0 <= j < |table[0].rules| && table[0].rules[j] == f.rule;
        assert table[0].field == f.field;
      } else {
        FailureIsDeclared(checks, table[1..], get, f);
        var i, j :| 0 <= i < |table[1..]| && 0 <= j < |table[1..][i].rules|
          && table[1..][i].field == f.field && table[1..][i].rules[j] == f.rule;
        assert table[i + 1] == table[1..][i];
      }
    }
  }
}
