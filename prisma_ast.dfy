/** Queries over a parsed Prisma schema: the top-level blocks of each kind,
    a model by name, a visitor walk, and the check that every relation
    field points at a declared model. */
module PrismaAst {
  import opened Wrappers
  import opened Strings
  import opened Seqs

  /** One `@attribute` of a field. */
  datatype Attribute = Attribute(name: string)

  /** One entry in a block's body. `kind` is the parser's `type` tag:
      `field` for a field declaration, other tags for block attributes,
      comments and breaks. `attributes` is absent when the parser gives none. */
  datatype Property = Property(
    kind: string,
    name: string,
    fieldType: string,
    optional: bool,
    isArray: bool,
    attributes: Option<seq<Attribute>>)

  /** A top-level block; `kind` is `model`, `enum`, `datasource`,
      `generator`, ... */
  datatype Block = Block(kind: string, name: string, properties: Option<seq<Property>>)

  /** The parsed schema; `list` is absent when the value handed in has no
      block list. */
  datatype PrismaSchema = PrismaSchema(list: Option<seq<Block>>)

  datatype ASTError = ASTError(message: string)

  /** What the JavaScript engine reports when a method is called on the missing
      block list. */
  function MissingListMessage(arrayMethod: string): string {
    "Cannot read properties of undefined (reading '" + arrayMethod + "')"
  }

  function KindIs(kind: string): Block -> bool {
    (b: Block) => b.kind == kind
  }

  /** The blocks of one kind, in schema order; fails when there is no block
      list. */
  function BlocksOfKind(ast: PrismaSchema, kind: string): (r: Result<seq<Block>, ASTError>)
    ensures r.Success? <==> ast.list.Some?
    ensures r.Failure? ==> r.error == ASTError(MissingListMessage("filter"))
    ensures r.Success? ==> forall b :: b in r.value ==> b in ast.list.value && b.kind == kind
    ensures r.Success? ==> forall b :: b in ast.list.value && b.kind == kind ==> b in r.value
  {
    match ast.list
    case None => Failure(ASTError(MissingListMessage("filter")))
    case Some(list) => Success(Filter(KindIs(kind), list))
  }

  function GetModels(ast: PrismaSchema): Result<seq<Block>, ASTError> {
    BlocksOfKind(ast, "model")
  }

  function GetEnums(ast: PrismaSchema): Result<seq<Block>, ASTError> {
    BlocksOfKind(ast, "enum")
  }

  function GetGenerators(ast: PrismaSchema): Result<seq<Block>, ASTError> {
    BlocksOfKind(ast, "generator")
  }

  /** The first block satisfying `p`, if any; fails when there is no block
      list. */
  function FindBlock(ast: PrismaSchema, p: Block -> bool): (r: Result<Option<Block>, ASTError>)
    ensures r.Success? <==> ast.list.Some?
    ensures r.Failure? ==> r.error == ASTError(MissingListMessage("find"))
    ensures r.Success? ==> (r.value.Some? <==> exists k :: 0 <= k < |ast.list.value| && p(ast.list.value[k]))
    ensures r.Success? && r.value.Some? ==> r.value.value in ast.list.value && p(r.value.value)
    ensures r.Success? && r.value.Some? ==>
      exists k :: 0 <= k < |ast.list.value| && ast.list.value[k] == r.value.value &&
        forall j :: 0 <= j < k ==> !p(ast.list.value[j])
  {
    match ast.list
    case None => Failure(ASTError(MissingListMessage("find")))
    case Some(list) =>
      var i := FirstIndex(p, list);
      if i.Some? then Success(Some(list[i.value])) else Success(None)
  }

  function GetDatasource(ast: PrismaSchema): Result<Option<Block>, ASTError> {
    FindBlock(ast, KindIs("datasource"))
  }

  function IsModelNamed(name: string): Block -> bool {
    (b: Block) => b.kind == "model" && b.name == name
  }

  function GetModelByName(ast: PrismaSchema, name: string): Result<Option<Block>, ASTError> {
    FindBlock(ast, IsModelNamed(name))
  }

  /** Block kinds partition the list: no block is both a model and an enum. */
  lemma ModelsAndEnumsDisjoint(ast: PrismaSchema)
    requires ast.list.Some?
    ensures forall b :: b in GetModels(ast).value ==> b !in GetEnums(ast).value
  {
  }

  /** The names of the given models. */
  function ModelNames(models: seq<Block>): set<string> {
    set m | m in models :: m.name
  }

  /** A model is found by name exactly when its name is among the names of
      the models the schema declares. */
  lemma GetModelByNameFinds(ast: PrismaSchema, name: string)
    requires ast.list.Some?
    ensures GetModelByName(ast, name).value.Some? <==> name in ModelNames(GetModels(ast).value)
  {
    var list := ast.list.value;
    if name in ModelNames(GetModels(ast).value) {
      var m :| m in GetModels(ast).value && m.name == name;
      var k :| 0 <= k < |list| && list[k] == m;
      assert IsModelNamed(name)(list[k]);
    }
    if GetModelByName(ast, name).value.Some? {
      var m := GetModelByName(ast, name).value.value;
      assert m in GetModels(ast).value;
    }
  }

  /** How a walk over the blocks ended. `Died` is the crash on a missing block
      list, which is not turned into a failure. */
  datatype WalkOutcome<E> = Completed | VisitorFailed(error: E) | Died

  /** Visits the blocks in order, stopping at the first visitor failure
      (`Some(e)` from the visitor). `calls` is how many blocks were visited. */
  method TraverseAst<E>(ast: PrismaSchema, visitor: Block -> Option<E>) returns (outcome: WalkOutcome<E>, calls: nat)
    ensures ast.list.None? ==> outcome == Died && calls == 0
    ensures ast.list.Some? ==>
      match FirstIndex((b: Block) => visitor(b).Some?, ast.list.value)
      case None => outcome == Completed && calls == |ast.list.value|
      case Some(i) => outcome == VisitorFailed(visitor(ast.list.value[i]).value) && calls == i + 1
  {
    if ast.list.None? {
      return Died, 0;
    }
    var list := ast.list.value;
    calls := 0;
    for i := 0 to |list|
      invariant calls == i
      invariant forall j :: 0 <= j < i ==> visitor(list[j]).None?
    {
      calls := calls + 1;
      var result := visitor(list[i]);
      if result.Some? {
        ghost var failed := (b: Block) => visitor(b).Some?;
        assert FirstIndex(failed, list) == Some(i) by {
          var f := FirstIndex(failed, list);
          assert f.Some?;
          assert !(f.value < i) && !(i < f.value);
        }
        return VisitorFailed(result.value), calls;
      }
    }
    outcome := Completed;
  }

  /** A field carries a `@relation` attribute. */
  predicate HasRelation(p: Property) {
    p.attributes.Some? && exists k :: 0 <= k < |p.attributes.value| && p.attributes.value[k].name == "relation"
  }

  /** A relation field whose target type is not a declared model. */
  predicate Dangling(p: Property, names: set<string>) {
    p.kind == "field" && HasRelation(p) && p.fieldType != [] && p.fieldType !in names
  }

  /** No field of the model is a dangling relation. */
  predicate ModelRelationsOk(m: Block, names: set<string>) {
    m.properties.None? ||
    forall j :: 0 <= j < |m.properties.value| ==> !Dangling(m.properties.value[j], names)
  }

  function RelationError(m: Block, p: Property): string {
    "Model " + m.name + ": field " + p.name + " references unknown model " + p.fieldType
  }

  /** One error for each `@relation` attribute of a dangling field. */
  function AttributeErrors(m: Block, p: Property, attrs: seq<Attribute>, names: set<string>): (r: seq<string>)
    ensures |r| <= |attrs|
    decreases |attrs|
  {
    if attrs == [] then []
    else
      AttributeErrors(m, p, attrs[..|attrs| - 1], names) +
      if attrs[|attrs| - 1].name == "relation" && p.fieldType != [] && p.fieldType !in names
      then [RelationError(m, p)] else []
  }

  function PropertyErrors(m: Block, p: Property, names: set<string>): seq<string> {
    if p.kind == "field" && p.attributes.Some? then AttributeErrors(m, p, p.attributes.value, names) else []
  }

  function PropertiesErrors(m: Block, props: seq<Property>, names: set<string>): seq<string>
    decreases |props|
  {
    if props == [] then []
    else PropertiesErrors(m, props[..|props| - 1], names) + PropertyErrors(m, props[|props| - 1], names)
  }

  function ModelErrors(m: Block, names: set<string>): seq<string> {
    if m.properties.Some? then PropertiesErrors(m, m.properties.value, names) else []
  }

  function ModelsErrors(models: seq<Block>, names: set<string>): seq<string>
    decreases |models|
  {
    if models == [] then []
    else ModelsErrors(models[..|models| - 1], names) + ModelErrors(models[|models| - 1], names)
  }

  /** The outcome the relation check promises: the empty error list, or one
      failure listing every error line. */
  function RelationCheck(ast: PrismaSchema): Result<seq<string>, ASTError> {
    match GetModels(ast)
    case Failure(e) => Failure(e)
    case Success(models) =>
      var errors := ModelsErrors(models, ModelNames(models));
      if |errors| > 0 then Failure(ASTError("Relation validation failed:\n" + Join(errors, "\n")))
      else Success([])
  }

  /** The errors for one property: one per `@relation` attribute when the
      field's type names no model. */
  method FieldRelationErrors(model: Block, field: Property, modelNames: set<string>) returns (errors: seq<string>)
    ensures errors == PropertyErrors(model, field, modelNames)
  {
    errors := [];
    if field.kind == "field" && field.attributes.Some? {
      var attrs := field.attributes.value;
      for k := 0 to |attrs|
        invariant errors == AttributeErrors(model, field, attrs[..k], modelNames)
      {
        if attrs[k].name == "relation" {
          var relatedType := field.fieldType;
          if relatedType != [] && relatedType !in modelNames {
            errors := errors + [RelationError(model, field)];
          }
        }
        assert attrs[..k + 1][..k] == attrs[..k];
      }
      assert attrs[..|attrs|] == attrs;
    }
  }

  /** The errors for every property of one model. */
  method ModelRelationErrors(model: Block, modelNames: set<string>) returns (errors: seq<string>)
    ensures errors == ModelErrors(model, modelNames)
  {
    errors := [];
    if model.properties.Some? {
      var props := model.properties.value;
      for j := 0 to |props|
        invariant errors == PropertiesErrors(model, props[..j], modelNames)
      {
        var fieldErrors := FieldRelationErrors(model, props[j], modelNames);
        errors := errors + fieldErrors;
        assert props[..j + 1][..j] == props[..j];
      }
      assert props[..|props|] == props;
    }
  }

  /** Walks every attribute of every field of every model, collecting an
      error for each relation to an unknown model. */
  method ValidateRelations(ast: PrismaSchema) returns (r: Result<seq<string>, ASTError>)
    ensures r == RelationCheck(ast)
  {
    var got := GetModels(ast);
    if got.Failure? {
      return Failure(got.error);
    }
    var models := got.value;
    var modelNames := ModelNames(models);
    var errors: seq<string> := [];
    for i := 0 to |models|
      invariant errors == ModelsErrors(models[..i], modelNames)
    {
      var modelErrors := ModelRelationErrors(models[i], modelNames);
      errors := errors + modelErrors;
      assert models[..i + 1][..i] == models[..i];
    }
    assert models[..|models|] == models;
    if |errors| > 0 {
      return Failure(ASTError("Relation validation failed:\n" + Join(errors, "\n")));
    }
    return Success(errors);
  }

  lemma {:induction false} AttributeErrorsEmpty(m: Block, p: Property, attrs: seq<Attribute>, names: set<string>)
    ensures AttributeErrors(m, p, attrs, names) == [] <==>
      !(p.fieldType != [] && p.fieldType !in names && exists k :: 0 <= k < |attrs| && attrs[k].name == "relation")
    decreases |attrs|
  {
    if attrs != [] {
      var init := attrs[..|attrs| - 1];
      AttributeErrorsEmpty(m, p, init, names);
      if exists k :: 0 <= k < |attrs| && attrs[k].name == "relation" {
        var k :| 0 <= k < |attrs| && attrs[k].name == "relation";
        if k < |attrs| - 1 {
          assert init[k] == attrs[k];
        }
      }
      if exists k :: 0 <= k < |init| && init[k].name == "relation" {
        var k :| 0 <= k < |init| && init[k].name == "relation";
        assert attrs[k] == init[k];
      }
    }
  }

  lemma {:induction false} PropertiesErrorsEmpty(m: Block, props: seq<Property>, names: set<string>)
    ensures PropertiesErrors(m, props, names) == [] <==> forall j :: 0 <= j < |props| ==> !Dangling(props[j], names)
    decreases |props|
  {
    if props != [] {
      var init := props[..|props| - 1];
      var last := props[|props| - 1];
      PropertiesErrorsEmpty(m, init, names);
      if last.kind == "field" && last.attributes.Some? {
        AttributeErrorsEmpty(m, last, last.attributes.value, names);
      }
      assert forall j :: 0 <= j < |init| ==> init[j] == props[j];
    }
  }

  lemma {:induction false} ModelsErrorsEmpty(models: seq<Block>, names: set<string>)
    ensures ModelsErrors(models, names) == [] <==> forall i :: 0 <= i < |models| ==> ModelRelationsOk(models[i], names)
    decreases |models|
  {
    if models != [] {
      var init := models[..|models| - 1];
      var last := models[|models| - 1];
      ModelsErrorsEmpty(init, names);
      if last.properties.Some? {
        PropertiesErrorsEmpty(last, last.properties.value, names);
      }
      assert forall i :: 0 <= i < |init| ==> init[i] == models[i];
    }
  }

  /** The check passes exactly when every relation field of every model names
      a declared model (or has no type name). */
  lemma RelationCheckPasses(ast: PrismaSchema)
    requires ast.list.Some?
    ensures RelationCheck(ast).Success? <==>
      forall i :: 0 <= i < |GetModels(ast).value| ==>
        ModelRelationsOk(GetModels(ast).value[i], ModelNames(GetModels(ast).value))
    ensures RelationCheck(ast).Success? ==> RelationCheck(ast).value == []
  {
    var models := GetModels(ast).value;
    ModelsErrorsEmpty(models, ModelNames(models));
  }
}
