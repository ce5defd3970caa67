/** How the parser collects type and relation declarations, and which of them it reports. */
module ModelDeclarations {
  import opened Common
  import opened ModelSummary

  /** A line that declares a type, or a relation on the type declared last. */
  datatype Declaration = Type(name: string) | Define(rel: RelationDef)

  datatype Issue = DuplicateType(name: string) | DuplicateRelation(name: string) | OutsideType(name: string)

  predicate NoneDuplicate(issues: seq<Issue>) { forall x <- issues :: x.OutsideType? }

  lemma IssueAdded(issues: seq<Issue>, x: Issue)
    ensures NoneDuplicate(issues + [x]) <==> NoneDuplicate(issues) && x.OutsideType?
  {
    assert forall y :: y in issues + [x] <==> y in issues || y == x;
  }

  // ----- What a list of declarations says

  predicate HasType(lines: seq<Declaration>) { exists d <- lines :: d.Type? }

  /** Lines j and i are under the same type. */
  predicate OneBlock(lines: seq<Declaration>, j: nat, i: nat)
    requires j < i <= |lines|
  {
    forall k | j <= k < i :: !lines[k].Type?
  }

  predicate DefinesBefore(lines: seq<Declaration>, name: string, i: nat)
    requires i <= |lines|
  {
    exists j | 0 <= j < i :: OneBlock(lines, j, i) && DefinesAt(lines, name, j)
  }

  predicate DefinesAt(lines: seq<Declaration>, name: string, j: nat)
    requires j < |lines|
  {
    lines[j].Define? && lines[j].rel.name == name
  }

  /** What is reported about line i: a type declared before, a relation declared before on the same type, or a
      relation before any type. */
  function IssueAt(lines: seq<Declaration>, i: nat): Option<Issue>
    requires i < |lines|
  {
    match lines[i]
    case Type(name) => if Type(name) in lines[..i] then Some(DuplicateType(name)) else None
    case Define(rel) =>
      if !HasType(lines[..i]) then Some(OutsideType(rel.name))
      else if DefinesBefore(lines, rel.name, i) then Some(DuplicateRelation(rel.name))
      else None
  }

  /** The issues of the first i lines, in order. */
  function IssuesOf(lines: seq<Declaration>, i: nat): seq<Issue>
    requires i <= |lines|
  {
    if i == 0 then []
    else IssuesOf(lines, i - 1) + match IssueAt(lines, i - 1) case None => [] case Some(x) => [x]
  }

  function Block(t: TypeDef): seq<Declaration> {
    [Type(t.name)] + seq(|t.relations|, k requires 0 <= k < |t.relations| => Define(t.relations[k]))
  }

  /** A model as the lines that declare it. */
  function Declared(model: Model): seq<Declaration> {
    if model == [] then [] else Declared(model[..|model| - 1]) + Block(model[|model| - 1])
  }

  /** The lines from the first type on. */
  function FromFirstType(lines: seq<Declaration>): seq<Declaration> {
    if lines == [] || lines[0].Type? then lines else FromFirstType(lines[1..])
  }

  // ----- One more line

  lemma {:induction false} FromFirstTypeSnoc(lines: seq<Declaration>, d: Declaration)
    ensures FromFirstType(lines + [d]) == if HasType(lines) || d.Type? then FromFirstType(lines) + [d] else []
    ensures !HasType(lines) ==> FromFirstType(lines) == []
  {
    if lines == [] {
      assert [] + [d] == [d];
    } else if !lines[0].Type? {
      FromFirstTypeSnoc(lines[1..], d);
      assert (lines + [d])[1..] == lines[1..] + [d];
      assert HasType(lines) <==> HasType(lines[1..]);
    }
  }

  lemma DeclaredSnoc(model: Model, t: TypeDef)
    ensures Declared(model + [t]) == Declared(model) + Block(t)
  {
    assert (model + [t])[..|model|] == model;
  }

  lemma BlockSnoc(t: TypeDef, rel: RelationDef)
    ensures Block(t.(relations := t.relations + [rel])) == Block(t) + [Define(rel)]
  {
  }

  lemma DeclaredGrows(model: Model, rel: RelationDef)
    requires model != []
    ensures Declared(WithRelation(model, rel)) == Declared(model) + [Define(rel)]
  {
    hide Block;
    var init, last := model[..|model| - 1], model[|model| - 1];
    assert model == init + [last];
    assert WithRelation(model, rel) == init + [last.(relations := last.relations + [rel])];
    DeclaredSnoc(init, last);
    DeclaredSnoc(init, last.(relations := last.relations + [rel]));
    BlockSnoc(last, rel);
  }

  /** The type declared last gets one more relation. */
  function WithRelation(model: Model, rel: RelationDef): (r: Model)
    requires model != []
    ensures |r| == |model|
  {
    var last := model[|model| - 1];
    model[|model| - 1 := last.(relations := last.relations + [rel])]
  }

  /** The model collected from the first i lines. */
  ghost predicate Collected(lines: seq<Declaration>, i: nat, model: Model)
    requires i <= |lines|
  {
    && Declared(model) == FromFirstType(lines[..i]) && (model == [] <==> !HasType(lines[..i]))
    && (forall name :: Names(model, name) <==> Type(name) in lines[..i])
    && (model != [] ==> forall name :: DefinesBefore(lines, name, i) <==> DefinesLast(model, name))
  }

  predicate Names(model: Model, name: string) { exists t <- model :: t.name == name }

  predicate DefinesLast(model: Model, name: string)
    requires model != []
  {
    exists r <- model[|model| - 1].relations :: r.name == name
  }

  lemma Prefix(lines: seq<Declaration>, i: nat)
    requires i < |lines|
    ensures lines[..i + 1] == lines[..i] + [lines[i]]
    ensures HasType(lines[..i + 1]) <==> HasType(lines[..i]) || lines[i].Type?
    ensures forall d :: d in lines[..i + 1] <==> d in lines[..i] || d == lines[i]
  {
    assert lines[..i + 1] == lines[..i] + [lines[i]];
  }

  lemma BeforeNext(lines: seq<Declaration>, name: string, i: nat)
    requires i < |lines|
    ensures DefinesBefore(lines, name, i + 1) <==>
            !lines[i].Type? && (DefinesAt(lines, name, i) || DefinesBefore(lines, name, i))
  {
    if DefinesBefore(lines, name, i + 1) {
      var j :| 0 <= j < i + 1 && OneBlock(lines, j, i + 1) && DefinesAt(lines, name, j);
      assert j < i ==> OneBlock(lines, j, i);
    }
    if !lines[i].Type? && DefinesBefore(lines, name, i) {
      var j :| 0 <= j < i && OneBlock(lines, j, i) && DefinesAt(lines, name, j);
      assert OneBlock(lines, j, i + 1);
    }
    if DefinesAt(lines, name, i) { assert OneBlock(lines, i, i + 1); }
  }

  lemma TypeCollected(lines: seq<Declaration>, i: nat, model: Model)
    requires i < |lines| && lines[i].Type? && Collected(lines, i, model)
    ensures Collected(lines, i + 1, model + [TypeDef(lines[i].name, [])])
  {
    hide HasType, FromFirstType, Declared, DefinesBefore;
    Prefix(lines, i);
    FromFirstTypeSnoc(lines[..i], lines[i]);
    var next := model + [TypeDef(lines[i].name, [])];
    DeclaredSnoc(model, TypeDef(lines[i].name, []));
    forall name
      ensures DefinesBefore(lines, name, i + 1) <==> DefinesLast(next, name)
      ensures Names(next, name) <==> Names(model, name) || name == lines[i].name
    {
      BeforeNext(lines, name, i);
      NamesSnoc(model, TypeDef(lines[i].name, []), name);
    }
  }

  lemma NamesSnoc(model: Model, t: TypeDef, name: string)
    ensures Names(model + [t], name) <==> Names(model, name) || t.name == name
  {
    assert forall u :: u in model + [t] <==> u in model || u == t;
  }

  lemma DefinesSnoc(model: Model, rel: RelationDef, name: string)
    requires model != []
    ensures DefinesLast(WithRelation(model, rel), name) <==> DefinesLast(model, name) || rel.name == name
    ensures Names(WithRelation(model, rel), name) <==> Names(model, name)
  {
    var init, last := model[..|model| - 1], model[|model| - 1];
    var more := last.(relations := last.relations + [rel]);
    assert forall r :: r in more.relations <==> r in last.relations || r == rel;
    assert model == init + [last] && WithRelation(model, rel) == init + [more];
    NamesSnoc(init, last, name);
    NamesSnoc(init, more, name);
  }

  lemma RelationCollected(lines: seq<Declaration>, i: nat, model: Model)
    requires i < |lines| && lines[i].Define? && Collected(lines, i, model)
    ensures Collected(lines, i + 1, if model == [] then model else WithRelation(model, lines[i].rel))
  {
    hide HasType, FromFirstType, Declared, DefinesBefore, Names, DefinesLast, WithRelation;
    Prefix(lines, i);
    FromFirstTypeSnoc(lines[..i], lines[i]);
    if model != [] {
      DeclaredGrows(model, lines[i].rel);
      forall name
        ensures Names(WithRelation(model, lines[i].rel), name) <==> Type(name) in lines[..i + 1]
        ensures DefinesBefore(lines, name, i + 1) <==> DefinesLast(WithRelation(model, lines[i].rel), name)
      {
        BeforeNext(lines, name, i);
        DefinesSnoc(model, lines[i].rel, name);
      }
    }
  }

  lemma NothingCollected(lines: seq<Declaration>)
    ensures Collected(lines, 0, [])
  {
  }

  /** The parser reports a duplicate and still keeps it: the model says what the lines from the first type
      on say, in order; each line is reported for what precedes it; and no duplicate is reported exactly
      when the model has none. */
  method Collect(lines: seq<Declaration>) returns (model: Model, issues: seq<Issue>)
    ensures Declared(model) == FromFirstType(lines)
    ensures issues == IssuesOf(lines, |lines|)
    ensures NoDuplicates(model) <==> NoneDuplicate(issues)
  {
    hide NoDuplicates, NoneDuplicate, Collected;
    model, issues := [], [];
    NothingCollected(lines);
    NoneYet();
    for i := 0 to |lines|
      invariant Collected(lines, i, model) && issues == IssuesOf(lines, i)
      invariant NoDuplicates(model) <==> NoneDuplicate(issues)
    {
      Tested(lines, i, model);
      match lines[i] {
        case Type(name) =>
          TypeAdded(model, name);
          TypeCollected(lines, i, model);
          if exists t <- model :: t.name == name {
            IssueAdded(issues, DuplicateType(name));
            issues := issues + [DuplicateType(name)];
          }
          model := model + [TypeDef(name, [])];
        case Define(rel) =>
          RelationCollected(lines, i, model);
          if model == [] {
            IssueAdded(issues, OutsideType(rel.name));
            issues := issues + [OutsideType(rel.name)];
          } else {
            RelationAdded(model, rel);
            var last := model[|model| - 1];
            if exists r <- last.relations :: r.name == rel.name {
              IssueAdded(issues, DuplicateRelation(rel.name));
              issues := issues + [DuplicateRelation(rel.name)];
            }
            model := model[|model| - 1 := last.(relations := last.relations + [rel])];
          }
      }
    }
    Whole(lines, model);
  }

  lemma NoneYet()
    ensures NoDuplicates([]) && NoneDuplicate([])
  {
  }

  /** What the parser tests on the model so far is what the issue of the line says. */
  lemma Tested(lines: seq<Declaration>, i: nat, model: Model)
    requires i < |lines| && Collected(lines, i, model)
    ensures match lines[i]
      case Type(name) => IssueAt(lines, i) == if Names(model, name) then Some(DuplicateType(name)) else None
      case Define(rel) =>
        IssueAt(lines, i) ==
          if model == [] then Some(OutsideType(rel.name))
          else if DefinesLast(model, rel.name) then Some(DuplicateRelation(rel.name)) else None
  {
    hide Names, DefinesLast, DefinesBefore, HasType, Declared, FromFirstType;
  }

  lemma Whole(lines: seq<Declaration>, model: Model)
    requires Collected(lines, |lines|, model)
    ensures Declared(model) == FromFirstType(lines)
  {
    assert lines[..|lines|] == lines;
  }

  lemma TypeAdded(model: Model, name: string)
    ensures NoDuplicates(model + [TypeDef(name, [])]) <==> NoDuplicates(model) && !exists t <- model :: t.name == name
  {
    var next := model + [TypeDef(name, [])];
    assert forall i | 0 <= i < |model| :: next[i] == model[i];
    if NoDuplicates(next) {
      forall i | 0 <= i < |model| ensures model[i].name != name {
        assert next[i].name != next[|model|].name;
      }
    }
  }

  lemma RelationAdded(model: Model, rel: RelationDef)
    requires model != []
    ensures var n, last := |model| - 1, model[|model| - 1];
      NoDuplicates(model[n := last.(relations := last.relations + [rel])]) <==>
      NoDuplicates(model) && !exists r <- last.relations :: r.name == rel.name
  {
    var n, last := |model| - 1, model[|model| - 1];
    var next := model[n := last.(relations := last.relations + [rel])];
    assert forall i | 0 <= i < |model| :: next[i].name == model[i].name;
    NameAdded(last.relations, rel);
    hide DistinctRelations;
    assert forall i | 0 <= i < n :: next[i] == model[i];
  }

  lemma NameAdded(relations: seq<RelationDef>, rel: RelationDef)
    ensures DistinctRelations(relations + [rel]) <==>
            DistinctRelations(relations) && !exists r <- relations :: r.name == rel.name
  {
    var next := relations + [rel];
    assert forall i | 0 <= i < |relations| :: next[i] == relations[i];
    if DistinctRelations(next) {
      forall i | 0 <= i < |relations| ensures relations[i].name != rel.name {
        assert next[i].name != next[|relations|].name;
      }
    }
  }
}
