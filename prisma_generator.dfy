/** The Prisma code generator: for each model of the parsed schema, an
    Effect Schema file (select and insert shapes) and a service file that
    wraps the Prisma client's model delegate. */
module PrismaGenerator {
  import opened Wrappers
  import opened Strings
  import opened Seqs
  import opened Fs
  import opened Templates
  import opened PrismaAst

  /** A field is the primary key when it carries an `@id` attribute. */
  predicate IsPrimaryKey(f: Property) {
    f.attributes.Some? && Any((a: Attribute) => a.name == "id", f.attributes.value)
  }

  /** The scalar-type table of the generator. */
  const PrismaTypeMap: map<string, string> := map[
    "String" := "Schema.String",
    "Int" := "Schema.Number",
    "Float" := "Schema.Number",
    "Boolean" := "Schema.Boolean",
    "DateTime" := "Schema.Date",
    "Json" := "Schema.Unknown",
    "Bytes" := "Schema.String",
    "Decimal" := "Schema.Number",
    "BigInt" := "Schema.BigInt"
  ]

  function BaseTypeOf(prismaType: string): string {
    if prismaType in PrismaTypeMap && PrismaTypeMap[prismaType] != [] then PrismaTypeMap[prismaType]
    else "Schema.Unknown"
  }

  /** The Effect Schema expression for a field type; list fields wrap the
      element type in `Schema.Array`. */
  function EffectTypeOf(prismaType: string, isArray: bool): string {
    var base := BaseTypeOf(prismaType);
    if isArray then "Schema.Array(" + base + ")" else base
  }

  const StringTypes: set<string> := {"String", "Bytes"}
  const NumberTypes: set<string> := {"Int", "Float", "Decimal"}

  /** Each family of scalar types becomes its Effect type; relation fields,
      enums and every other unlisted type become `Schema.Unknown`; the array
      flag only wraps. */
  lemma EffectTypeFamilies(prismaType: string, isArray: bool)
    ensures BaseTypeOf(prismaType) == "Schema.String" <==> prismaType in StringTypes
    ensures BaseTypeOf(prismaType) == "Schema.Number" <==> prismaType in NumberTypes
    ensures BaseTypeOf(prismaType) == "Schema.Boolean" <==> prismaType == "Boolean"
    ensures BaseTypeOf(prismaType) == "Schema.Date" <==> prismaType == "DateTime"
    ensures BaseTypeOf(prismaType) == "Schema.BigInt" <==> prismaType == "BigInt"
    ensures BaseTypeOf(prismaType) == "Schema.Unknown" <==>
      !(prismaType in StringTypes + NumberTypes + {"Boolean", "DateTime", "BigInt"})
    ensures EffectTypeOf(prismaType, isArray) ==
      if isArray then "Schema.Array(" + BaseTypeOf(prismaType) + ")" else BaseTypeOf(prismaType)
  {
  }

  predicate IsField(p: Property) {
    p.kind == "field"
  }

  /** The model's field declarations, in order; block attributes and
      comments are not fields. A block without a property list, which the
      schema parser never produces, has none. */
  function Fields(m: Block): seq<Property> {
    if m.properties.Some? then Filter(IsField, m.properties.value) else []
  }

  predicate NotPrimaryKey(f: Property) {
    !IsPrimaryKey(f)
  }

  /** The insert shape leaves out every `@id` field. */
  function InsertFieldsOf(m: Block): seq<Property> {
    Filter(NotPrimaryKey, Fields(m))
  }

  /** A field is optional in both shapes exactly when it is declared
      optional (`?`). */
  function FieldLine(f: Property): string {
    var base := EffectTypeOf(f.fieldType, f.isArray);
    "  " + f.name + ": " + (if f.optional then "Schema.optional(" + base + ")" else base) + ","
  }

  function SelectFields(m: Block): string {
    Join(Map(FieldLine, Fields(m)), "\n")
  }

  function InsertFields(m: Block): string {
    Join(Map(FieldLine, InsertFieldsOf(m)), "\n")
  }

  /** A property appears in the insert shape exactly when it is a field
      without `@id`. */
  lemma InsertFieldsExact(m: Block, p: Property)
    requires m.properties.Some?
    ensures p in InsertFieldsOf(m) <==> p in m.properties.value && p.kind == "field" && !IsPrimaryKey(p)
  {
  }

  /** No Effect type the generator writes holds a line break. */
  lemma EffectTypeOneLine(prismaType: string, isArray: bool)
    ensures '\n' !in EffectTypeOf(prismaType, isArray)
  {
    var base := BaseTypeOf(prismaType);
    assert '\n' !in base by {
      assert base in {"Schema.String", "Schema.Number", "Schema.Boolean", "Schema.Date", "Schema.Unknown", "Schema.BigInt"};
    }
    assert "Schema.Array(" + base + ")" == "Schema.Array(" + (base + ")");
  }

  /** A field's line is one line when its name holds no line break. */
  lemma FieldLineOneLine(f: Property)
    requires '\n' !in f.name
    ensures '\n' !in FieldLine(f)
  {
    var base := EffectTypeOf(f.fieldType, f.isArray);
    EffectTypeOneLine(f.fieldType, f.isArray);
    var ty := if f.optional then "Schema.optional(" + base + ")" else base;
    assert '\n' !in ty;
    assert FieldLine(f) == "  " + f.name + ": " + ty + ",";
  }

  /** No field line holds a line break when no field name does. */
  lemma FieldLinesOneLine(fields: seq<Property>)
    requires forall k :: 0 <= k < |fields| ==> '\n' !in fields[k].name
    ensures forall k :: 0 <= k < |fields| ==> '\n' !in Map(FieldLine, fields)[k]
  {
    forall k | 0 <= k < |fields| ensures '\n' !in Map(FieldLine, fields)[k] {
      MapAt(FieldLine, fields, k);
      FieldLineOneLine(fields[k]);
    }
  }

  /** The text of a shape has one line per field, in field order, as long
      as no field name holds a line break. */
  lemma FieldsLines(fields: seq<Property>)
    requires |fields| >= 1
    requires forall k :: 0 <= k < |fields| ==> '\n' !in fields[k].name
    ensures Split(Join(Map(FieldLine, fields), "\n"), '\n') == Map(FieldLine, fields)
  {
    FieldLinesOneLine(fields);
    SplitJoin(Map(FieldLine, fields), '\n');
  }

  /** The select shape's text has one line per field of the model. */
  lemma SelectFieldsLines(m: Block)
    requires |Fields(m)| >= 1
    requires forall k :: 0 <= k < |Fields(m)| ==> '\n' !in Fields(m)[k].name
    ensures Split(SelectFields(m), '\n') == Map(FieldLine, Fields(m))
  {
    FieldsLines(Fields(m));
  }

  /** The insert shape's text has one line per field without `@id`. */
  lemma InsertFieldsLines(m: Block)
    requires |InsertFieldsOf(m)| >= 1
    requires forall k :: 0 <= k < |InsertFieldsOf(m)| ==> '\n' !in InsertFieldsOf(m)[k].name
    ensures Split(InsertFields(m), '\n') == Map(FieldLine, InsertFieldsOf(m))
  {
    FieldsLines(InsertFieldsOf(m));
  }

  datatype SchemaHole = SchemaModelName | SelectFieldsText | InsertFieldsText

  /** The schema file's import. */
  const SchemaImports: seq<Piece<SchemaHole>> := [
    Text("import { Schema } from 'effect'\n"),
    Text("\n")
  ]

  /** The select shape. */
  const SelectSchema: seq<Piece<SchemaHole>> := [
    Text("export const select"), Hole(SchemaModelName), Text("Schema = Schema.Struct({\n"),
    Hole(SelectFieldsText), Text("\n"),
    Text("})\n"),
    Text("\n")
  ]

  /** The insert shape. */
  const InsertSchema: seq<Piece<SchemaHole>> := [
    Text("export const insert"), Hole(SchemaModelName), Text("Schema = Schema.Struct({\n"),
    Hole(InsertFieldsText), Text("\n"),
    Text("})\n")
  ]

  const SchemaTemplate: seq<Piece<SchemaHole>> := SchemaImports + (SelectSchema + InsertSchema)

  function SchemaFill(m: Block): SchemaHole -> string {
    (h: SchemaHole) =>
      match h
      case SchemaModelName => m.name
      case SelectFieldsText => SelectFields(m)
      case InsertFieldsText => InsertFields(m)
  }

  /** `<name>-schemas` content: the select and insert shapes. */
  function SchemaFile(m: Block): string {
    Render(SchemaTemplate, SchemaFill(m))
  }

  /** The schema file holds the property lines of both shapes. */
  lemma SchemaFileHasShapes(m: Block)
    ensures Contains(SchemaFile(m), SelectFields(m))
    ensures Contains(SchemaFile(m), InsertFields(m))
  {
    var fill := SchemaFill(m);
    assert SelectSchema[3] == Hole(SelectFieldsText);
    RenderHole(SelectSchema, fill, 3);
    RenderBefore(SelectSchema, InsertSchema, fill, SelectFields(m));
    RenderAfter(SchemaImports, SelectSchema + InsertSchema, fill, SelectFields(m));
    assert InsertSchema[3] == Hole(InsertFieldsText);
    RenderHole(InsertSchema, fill, 3);
    RenderAfter(SelectSchema, InsertSchema, fill, InsertFields(m));
    RenderAfter(SchemaImports, SelectSchema + InsertSchema, fill, InsertFields(m));
  }

  /** The schema file declares `select<Name>Schema` with the select shape's
      lines. */
  lemma SchemaFileDeclaresSelect(m: Block)
    ensures Contains(SchemaFile(m), "export const select" + m.name + "Schema = Schema.Struct({\n" + SelectFields(m) + "\n")
  {
    var fill := SchemaFill(m);
    var x := "export const select" + m.name + "Schema = Schema.Struct({\n" + SelectFields(m) + "\n";
    RenderRun5(SelectSchema, fill, 0, "export const select", SchemaModelName, "Schema = Schema.Struct({\n", SelectFieldsText, "\n");
    RenderBefore(SelectSchema, InsertSchema, fill, x);
    RenderAfter(SchemaImports, SelectSchema + InsertSchema, fill, x);
  }

  /** The schema file declares `insert<Name>Schema` with the insert shape's
      lines. */
  lemma SchemaFileDeclaresInsert(m: Block)
    ensures Contains(SchemaFile(m), "export const insert" + m.name + "Schema = Schema.Struct({\n" + InsertFields(m) + "\n")
  {
    var fill := SchemaFill(m);
    var x := "export const insert" + m.name + "Schema = Schema.Struct({\n" + InsertFields(m) + "\n";
    RenderRun5(InsertSchema, fill, 0, "export const insert", SchemaModelName, "Schema = Schema.Struct({\n", InsertFieldsText, "\n");
    RenderAfter(SelectSchema, InsertSchema, fill, x);
    RenderAfter(SchemaImports, SelectSchema + InsertSchema, fill, x);
  }

  datatype ServiceHole = ModelName | ModelLower

  /** The imports and the tagged error classes. */
  const ServicePrelude: seq<Piece<ServiceHole>> := [
    Text("import { Context, Data, Effect, Layer, Schema } from 'effect'\n"),
    Text("import { PrismaClient } from '@prisma/client'\n"),
    Text("\n"),
    Text("import { insert"), Hole(ModelName), Text("Schema, select"), Hole(ModelName), Text("Schema } from '@workspace/database/effect/schemas/"), Hole(ModelLower), Text("-schemas'\n"),
    Text("\n"),
    Text("export class DatabaseError extends Data.TaggedError('DatabaseError')<{\n"),
    Text("  readonly cause: unknown\n"),
    Text("}> {}\n"),
    Text("\n"),
    Text("export class "), Hole(ModelName), Text("NotFound extends Data.TaggedError('"), Hole(ModelName), Text("NotFound')<{\n"),
    Text("  readonly id: string | number\n"),
    Text("}> {}\n"),
    Text("\n"),
    Text("export class ConflictError extends Data.TaggedError('ConflictError')<{\n"),
    Text("  readonly message: string\n"),
    Text("  readonly conflictingField?: string\n"),
    Text("}> {}\n"),
    Text("\n")
  ]

  /** The head of `make<Name>Service` and its `find...` operations. */
  const ServiceReads: seq<Piece<ServiceHole>> := [
    Text("const make"), Hole(ModelName), Text("Service = Effect.gen(function* () {\n"),
    Text("  const prisma = yield* PrismaClient\n"),
    Text("\n"),
    Text("  return {\n"),
    Text("    findMany: (args?) =>\n"),
    Text("      Effect.tryPromise({\n"),
    Text("        try: () => prisma."), Hole(ModelLower), Text(".findMany(args),\n"),
    Text("        catch: error => new DatabaseError({ cause: error }),\n"),
    Text("      }).pipe(\n"),
    Text("        Effect.flatMap(results =>\n"),
    Text("          Effect.all(\n"),
    Text("            results.map(result => Schema.decodeUnknown(select"), Hole(ModelName), Text("Schema)(result))\n"),
    Text("          )\n"),
    Text("        )\n"),
    Text("      ),\n"),
    Text("\n"),
    Text("    findUnique: (args) =>\n"),
    Text("      Effect.tryPromise({\n"),
    Text("        try: () => prisma."), Hole(ModelLower), Text(".findUnique(args),\n"),
    Text("        catch: error => new DatabaseError({ cause: error }),\n"),
    Text("      }).pipe(\n"),
    Text("        Effect.flatMap(result =>\n"),
    Text("          result\n"),
    Text("            ? Schema.decodeUnknown(select"), Hole(ModelName), Text("Schema)(result)\n"),
    Text("            : Effect.fail(new "), Hole(ModelName), Text("NotFound({ id: 'unknown' }))\n"),
    Text("        )\n"),
    Text("      ),\n"),
    Text("\n"),
    Text("    findUniqueOrThrow: (args) =>\n"),
    Text("      Effect.tryPromise({\n"),
    Text("        try: () => prisma."), Hole(ModelLower), Text(".findUniqueOrThrow(args),\n"),
    Text("        catch: error => new DatabaseError({ cause: error }),\n"),
    Text("      }).pipe(\n"),
    Text("        Effect.flatMap(result => Schema.decodeUnknown(select"), Hole(ModelName), Text("Schema)(result))\n"),
    Text("      ),\n"),
    Text("\n"),
    Text("    findFirst: (args?) =>\n"),
    Text("      Effect.tryPromise({\n"),
    Text("        try: () => prisma."), Hole(ModelLower), Text(".findFirst(args),\n"),
    Text("        catch: error => new DatabaseError({ cause: error }),\n"),
    Text("      }).pipe(\n"),
    Text("        Effect.flatMap(result =>\n"),
    Text("          result\n"),
    Text("            ? Schema.decodeUnknown(select"), Hole(ModelName), Text("Schema)(result)\n"),
    Text("            : Effect.fail(new "), Hole(ModelName), Text("NotFound({ id: 'unknown' }))\n"),
    Text("        )\n"),
    Text("      ),\n"),
    Text("\n"),
    Text("    findFirstOrThrow: (args?) =>\n"),
    Text("      Effect.tryPromise({\n"),
    Text("        try: () => prisma."), Hole(ModelLower), Text(".findFirstOrThrow(args),\n"),
    Text("        catch: error => new DatabaseError({ cause: error }),\n"),
    Text("      }).pipe(\n"),
    Text("        Effect.flatMap(result => Schema.decodeUnknown(select"), Hole(ModelName), Text("Schema)(result))\n"),
    Text("      ),\n"),
    Text("\n")
  ]

  /** Its `create...`, `update...`, `upsert` and `delete...` operations. */
  const ServiceWrites: seq<Piece<ServiceHole>> := [
    Text("    create: (args) =>\n"),
    Text("      Effect.tryPromise({\n"),
    Text("        try: () => prisma."), Hole(ModelLower), Text(".create(args),\n"),
    Text("        catch: error => new DatabaseError({ cause: error }),\n"),
    Text("      }).pipe(\n"),
    Text("        Effect.flatMap(result => Schema.decodeUnknown(select"), Hole(ModelName), Text("Schema)(result))\n"),
    Text("      ),\n"),
    Text("\n"),
    Text("    createMany: (args) =>\n"),
    Text("      Effect.tryPromise({\n"),
    Text("        try: () => prisma."), Hole(ModelLower), Text(".createMany(args),\n"),
    Text("        catch: error => new DatabaseError({ cause: error }),\n"),
    Text("      }).pipe(\n"),
    Text("        Effect.map(result => result.count)\n"),
    Text("      ),\n"),
    Text("\n"),
    Text("    createManyAndReturn: (args) =>\n"),
    Text("      Effect.tryPromise({\n"),
    Text("        try: () => prisma."), Hole(ModelLower), Text(".createManyAndReturn(args),\n"),
    Text("        catch: error => new DatabaseError({ cause: error }),\n"),
    Text("      }).pipe(\n"),
    Text("        Effect.flatMap(results =>\n"),
    Text("          Effect.all(\n"),
    Text("            results.map(result => Schema.decodeUnknown(select"), Hole(ModelName), Text("Schema)(result))\n"),
    Text("          )\n"),
    Text("        )\n"),
    Text("      ),\n"),
    Text("\n"),
    Text("    update: (args) =>\n"),
    Text("      Effect.tryPromise({\n"),
    Text("        try: () => prisma."), Hole(ModelLower), Text(".update(args),\n"),
    Text("        catch: error => new DatabaseError({ cause: error }),\n"),
    Text("      }).pipe(\n"),
    Text("        Effect.flatMap(result => Schema.decodeUnknown(select"), Hole(ModelName), Text("Schema)(result))\n"),
    Text("      ),\n"),
    Text("\n"),
    Text("    updateMany: (args) =>\n"),
    Text("      Effect.tryPromise({\n"),
    Text("        try: () => prisma."), Hole(ModelLower), Text(".updateMany(args),\n"),
    Text("        catch: error => new DatabaseError({ cause: error }),\n"),
    Text("      }).pipe(\n"),
    Text("        Effect.map(result => result.count)\n"),
    Text("      ),\n"),
    Text("\n"),
    Text("    updateManyAndReturn: (args) =>\n"),
    Text("      Effect.tryPromise({\n"),
    Text("        try: () => prisma."), Hole(ModelLower), Text(".updateManyAndReturn(args),\n"),
    Text("        catch: error => new DatabaseError({ cause: error }),\n"),
    Text("      }).pipe(\n"),
    Text("        Effect.flatMap(results =>\n"),
    Text("          Effect.all(\n"),
    Text("            results.map(result => Schema.decodeUnknown(select"), Hole(ModelName), Text("Schema)(result))\n"),
    Text("          )\n"),
    Text("        )\n"),
    Text("      ),\n"),
    Text("\n"),
    Text("    upsert: (args) =>\n"),
    Text("      Effect.tryPromise({\n"),
    Text("        try: () => prisma."), Hole(ModelLower), Text(".upsert(args),\n"),
    Text("        catch: error => new DatabaseError({ cause: error }),\n"),
    Text("      }).pipe(\n"),
    Text("        Effect.flatMap(result => Schema.decodeUnknown(select"), Hole(ModelName), Text("Schema)(result))\n"),
    Text("      ),\n"),
    Text("\n"),
    Text("    delete: (args) =>\n"),
    Text("      Effect.tryPromise({\n"),
    Text("        try: () => prisma."), Hole(ModelLower), Text(".delete(args),\n"),
    Text("        catch: error => new DatabaseError({ cause: error }),\n"),
    Text("      }).pipe(\n"),
    Text("        Effect.flatMap(result => Schema.decodeUnknown(select"), Hole(ModelName), Text("Schema)(result))\n"),
    Text("      ),\n"),
    Text("\n"),
    Text("    deleteMany: (args?) =>\n"),
    Text("      Effect.tryPromise({\n"),
    Text("        try: () => prisma."), Hole(ModelLower), Text(".deleteMany(args),\n"),
    Text("        catch: error => new DatabaseError({ cause: error }),\n"),
    Text("      }).pipe(\n"),
    Text("        Effect.map(result => result.count)\n"),
    Text("      ),\n"),
    Text("\n")
  ]

  /** Its `aggregate`, `groupBy`, `count` and `findManyDistinct` operations, and its end. */
  const ServiceAggregates: seq<Piece<ServiceHole>> := [
    Text("    aggregate: (args) =>\n"),
    Text("      Effect.tryPromise({\n"),
    Text("        try: () => prisma."), Hole(ModelLower), Text(".aggregate(args),\n"),
    Text("        catch: error => new DatabaseError({ cause: error }),\n"),
    Text("      }),\n"),
    Text("\n"),
    Text("    groupBy: (args) =>\n"),
    Text("      Effect.tryPromise({\n"),
    Text("        try: () => prisma."), Hole(ModelLower), Text(".groupBy(args),\n"),
    Text("        catch: error => new DatabaseError({ cause: error }),\n"),
    Text("      }),\n"),
    Text("\n"),
    Text("    count: (args?) =>\n"),
    Text("      Effect.tryPromise({\n"),
    Text("        try: () => prisma."), Hole(ModelLower), Text(".count(args),\n"),
    Text("        catch: error => new DatabaseError({ cause: error }),\n"),
    Text("      }),\n"),
    Text("\n"),
    Text("    findManyDistinct: (args?) =>\n"),
    Text("      Effect.tryPromise({\n"),
    Text("        try: () => prisma."), Hole(ModelLower), Text(".findMany(args),\n"),
    Text("        catch: error => new DatabaseError({ cause: error }),\n"),
    Text("      }).pipe(\n"),
    Text("        Effect.flatMap(results =>\n"),
    Text("          Effect.all(\n"),
    Text("            results.map(result => Schema.decodeUnknown(select"), Hole(ModelName), Text("Schema)(result))\n"),
    Text("          )\n"),
    Text("        )\n"),
    Text("      ),\n"),
    Text("  }\n"),
    Text("})\n"),
    Text("\n")
  ]

  /** The `Context.Tag` class and its `Live` layer. */
  const ServiceTag: seq<Piece<ServiceHole>> := [
    Text("export class "), Hole(ModelName), Text("Service extends Context.Tag('"), Hole(ModelName), Text("Service')<\n"),
    Text("  "), Hole(ModelName), Text("Service,\n"),
    Text("  Effect.Effect.Success<typeof make"), Hole(ModelName), Text("Service>\n"),
    Text(">() {\n"),
    Text("  static readonly Live = Layer.effect("), Hole(ModelName), Text("Service, make"), Hole(ModelName), Text("Service)\n"),
    Text("}\n")
  ]

  const ServiceTemplate: seq<Piece<ServiceHole>> :=
    ServicePrelude + (ServiceReads + (ServiceWrites + (ServiceAggregates + ServiceTag)))

  function ServiceFill(m: Block): ServiceHole -> string {
    (h: ServiceHole) =>
      match h
      case ModelName => m.name
      case ModelLower => ToLower(m.name)
  }

  /** `<Name>Service` content: a Context tag whose layer forwards every
      delegate operation of `prisma.<name>` and decodes what it returns. */
  function ServiceFile(m: Block): string {
    Render(ServiceTemplate, ServiceFill(m))
  }

  /** The service addresses the client's delegate under the lower-case model
      name, and depends on nothing but the model's name. */
  lemma ServiceFileOfName(m: Block, n: Block)
    ensures Contains(ServiceFile(m), ToLower(m.name))
    ensures m.name == n.name ==> ServiceFile(m) == ServiceFile(n)
  {
    var fill := ServiceFill(m);
    assert ServiceReads[73] == Hole(ModelLower);
    RenderHole(ServiceReads, fill, 73);
    RenderBefore(ServiceReads, ServiceWrites + (ServiceAggregates + ServiceTag), fill, ToLower(m.name));
    RenderAfter(ServicePrelude, ServiceReads + (ServiceWrites + (ServiceAggregates + ServiceTag)), fill, ToLower(m.name));
    if m.name == n.name {
      RenderAgree(ServiceTemplate, ServiceFill(m), ServiceFill(n));
    }
  }

  /** The service declares the tagged error `<Name>NotFound`. */
  lemma ServiceDeclaresNotFound(m: Block)
    ensures Contains(ServiceFile(m), "export class " + m.name + "NotFound extends Data.TaggedError('" + m.name + "NotFound')<{\n")
  {
    var fill := ServiceFill(m);
    var declared := "export class " + m.name + "NotFound extends Data.TaggedError('" + m.name + "NotFound')<{\n";
    RenderRun5(ServicePrelude, fill, 15, "export class ", ModelName, "NotFound extends Data.TaggedError('", ModelName, "NotFound')<{\n");
    RenderBefore(ServicePrelude, ServiceReads + (ServiceWrites + (ServiceAggregates + ServiceTag)), fill, declared);
  }

  /** A nullable lookup that finds nothing fails with `<Name>NotFound`. */
  lemma ServiceFailsNotFound(m: Block)
    ensures Contains(ServiceFile(m), "            : Effect.fail(new " + m.name + "NotFound({ id: 'unknown' }))\n")
  {
    var fill := ServiceFill(m);
    var rest := ServiceWrites + (ServiceAggregates + ServiceTag);
    var used := "            : Effect.fail(new " + m.name + "NotFound({ id: 'unknown' }))\n";
    RenderRun3(ServiceReads, fill, 64, "            : Effect.fail(new ", ModelName, "NotFound({ id: 'unknown' }))\n");
    RenderBefore(ServiceReads, rest, fill, used);
    RenderAfter(ServicePrelude, ServiceReads + rest, fill, used);
  }

  /** `<outputDir>/schemas/<lower-case name>-schemas.ts` */
  function SchemaPath(outputDir: string, m: Block): string {
    PathJoin(PathJoin(outputDir, "schemas"), ToLower(m.name) + "-schemas.ts")
  }

  /** `<outputDir>/services/<Name>Service.ts` */
  function ServicePath(outputDir: string, m: Block): string {
    PathJoin(PathJoin(outputDir, "services"), m.name + "Service.ts")
  }

  function ModelFiles(outputDir: string, m: Block): seq<FsOp> {
    [WriteFile(SchemaPath(outputDir, m), SchemaFile(m)), WriteFile(ServicePath(outputDir, m), ServiceFile(m))]
  }

  function ModelsFiles(outputDir: string, models: seq<Block>): (r: seq<FsOp>)
    ensures |r| == 2 * |models|
  {
    if models == [] then []
    else
      ModelsFiles(outputDir, models[..|models| - 1]) + ModelFiles(outputDir, models[|models| - 1])
  }

  /** Model `k`'s schema and service files are the writes `2k` and
      `2k+1`. */
  lemma {:induction false} ModelsFilesAt(outputDir: string, models: seq<Block>, k: nat)
    requires k < |models|
    ensures ModelsFiles(outputDir, models)[2 * k] == WriteFile(SchemaPath(outputDir, models[k]), SchemaFile(models[k]))
    ensures ModelsFiles(outputDir, models)[2 * k + 1] == WriteFile(ServicePath(outputDir, models[k]), ServiceFile(models[k]))
    decreases |models|
  {
    var init := models[..|models| - 1];
    if k < |models| - 1 {
      ModelsFilesAt(outputDir, init, k);
      assert init[k] == models[k];
    }
  }

  lemma ModelsFilesStep(outputDir: string, models: seq<Block>, i: nat)
    requires i < |models|
    ensures ModelsFiles(outputDir, models[..i + 1]) == ModelsFiles(outputDir, models[..i]) + ModelFiles(outputDir, models[i])
  {
    assert models[..i + 1][..i] == models[..i];
  }

  /** The blocks the generator treats as models are the ones the AST
      utilities return as models. */
  lemma GeneratorModelsAreAstModels(list: seq<Block>)
    ensures Filter(KindIs("model"), list) == GetModels(PrismaSchema(Some(list))).value
  {
  }

  /** The two directories the generator creates before any file. */
  function OutputDirs(outputDir: string): seq<FsOp> {
    [MakeDir(PathJoin(outputDir, "schemas")), MakeDir(PathJoin(outputDir, "services"))]
  }

  /** Creates `schemas` and `services` under the output directory, then
      writes both generated files of every model block of the parsed
      schema. */
  method GenerateEffectServices(list: seq<Block>, outputDir: string) returns (ops: seq<FsOp>)
    ensures ops == OutputDirs(outputDir) + ModelsFiles(outputDir, Filter(KindIs("model"), list))
  {
    ops := OutputDirs(outputDir);
    var models := Filter(KindIs("model"), list);
    for i := 0 to |models|
      invariant ops == OutputDirs(outputDir) + ModelsFiles(outputDir, models[..i])
    {
      ops := WriteModel(ops, outputDir, models[i]);
      ModelsFilesStep(outputDir, models, i);
      AppendAssoc(OutputDirs(outputDir), ModelsFiles(outputDir, models[..i]), ModelFiles(outputDir, models[i]));
    }
    assert models[..|models|] == models;
  }

  /** One iteration of the generator's loop: the schema file of a model,
      then its service file. */
  method WriteModel(ops: seq<FsOp>, outputDir: string, model: Block) returns (ops': seq<FsOp>)
    ensures ops' == ops + ModelFiles(outputDir, model)
  {
    var selectSchemaFile := SchemaFile(model);
    ops' := ops + [WriteFile(SchemaPath(outputDir, model), selectSchemaFile)];
    var serviceFile := ServiceFile(model);
    AppendAssoc(ops, [WriteFile(SchemaPath(outputDir, model), selectSchemaFile)],
      [WriteFile(ServicePath(outputDir, model), serviceFile)]);
    ops' := ops' + [WriteFile(ServicePath(outputDir, model), serviceFile)];
  }
}
