/** The Drizzle code generator: for each parsed table, an Effect Schema file
    (select and insert shapes) and a service file with CRUD operations. */
module DrizzleGenerator {
  import opened Wrappers
  import opened Strings
  import opened Seqs
  import opened Fs
  import opened DrizzleParser
  import opened Templates

  /** The column-type table of the generator. */
  const DrizzleTypeMap: map<string, string> := map[
    "text" := "Schema.String",
    "varchar" := "Schema.String",
    "uuid" := "Schema.String",
    "integer" := "Schema.Number",
    "serial" := "Schema.Number",
    "bigint" := "Schema.BigInt",
    "boolean" := "Schema.Boolean",
    "timestamp" := "Schema.Date",
    "date" := "Schema.Date",
    "json" := "Schema.Unknown",
    "jsonb" := "Schema.Unknown",
    "real" := "Schema.Number",
    "doublePrecision" := "Schema.Number"
  ]

  /** The families of Drizzle column types, grouped by the Effect type they
      become. */
  const StringTypes: set<string> := {"text", "varchar", "uuid"}
  const NumberTypes: set<string> := {"integer", "serial", "real", "doublePrecision"}
  const DateTypes: set<string> := {"timestamp", "date"}

  /** The Effect Schema expression for a Drizzle column type. */
  function EffectTypeOf(drizzleType: string): string {
    if drizzleType in DrizzleTypeMap && DrizzleTypeMap[drizzleType] != [] then DrizzleTypeMap[drizzleType]
    else "Schema.Unknown"
  }

  /** Each family of column types becomes its Effect type, and every type
      outside the families (the JSON types and all unlisted ones) becomes
      `Schema.Unknown`. */
  lemma EffectTypeFamilies(drizzleType: string)
    ensures EffectTypeOf(drizzleType) == "Schema.String" <==> drizzleType in StringTypes
    ensures EffectTypeOf(drizzleType) == "Schema.Number" <==> drizzleType in NumberTypes
    ensures EffectTypeOf(drizzleType) == "Schema.BigInt" <==> drizzleType == "bigint"
    ensures EffectTypeOf(drizzleType) == "Schema.Boolean" <==> drizzleType == "boolean"
    ensures EffectTypeOf(drizzleType) == "Schema.Date" <==> drizzleType in DateTypes
    ensures EffectTypeOf(drizzleType) == "Schema.Unknown" <==>
      !(drizzleType in StringTypes + NumberTypes + DateTypes + {"bigint", "boolean"})
  {
  }

  /** One property line of a generated `Schema.Struct`. */
  function FieldLine(name: string, effectType: string, optional: bool): string {
    "  " + name + ": " + (if optional then "Schema.optional(" + effectType + ")" else effectType) + ","
  }

  /** A column may be absent from a selected row unless it is not-null or the
      primary key. */
  predicate SelectOptional(c: DrizzleColumn) {
    !(c.isNotNull || c.isPrimaryKey)
  }

  /** A column may be omitted on insert when it is nullable or has a default. */
  predicate InsertOptional(c: DrizzleColumn) {
    !c.isNotNull || c.hasDefault
  }

  function SelectLine(c: DrizzleColumn): string {
    FieldLine(c.name, EffectTypeOf(c.typeName), SelectOptional(c))
  }

  function InsertLine(c: DrizzleColumn): string {
    FieldLine(c.name, EffectTypeOf(c.typeName), InsertOptional(c))
  }

  function SelectLines(t: DrizzleTable): seq<string> {
    Map(SelectLine, t.columns)
  }

  /** Insert shapes leave out the primary key whose value the database
      supplies. */
  predicate InInsert(c: DrizzleColumn) {
    !(c.isPrimaryKey && c.hasDefault)
  }

  function InsertColumns(t: DrizzleTable): seq<DrizzleColumn> {
    Filter(InInsert, t.columns)
  }

  function InsertLines(t: DrizzleTable): seq<string> {
    Map(InsertLine, InsertColumns(t))
  }

  function SelectFields(t: DrizzleTable): string {
    Join(SelectLines(t), "\n")
  }

  function InsertFields(t: DrizzleTable): string {
    Join(InsertLines(t), "\n")
  }

  /** The property appears in the insert shape exactly when it is not a primary
      key with a default. */
  lemma InsertColumnsExact(t: DrizzleTable, c: DrizzleColumn)
    ensures c in InsertColumns(t) <==> c in t.columns && !(c.isPrimaryKey && c.hasDefault)
  {
  }

  /** The select shape's text has one line per column, in column order, as
      long as no column name holds a line break. */
  lemma SelectFieldsLines(t: DrizzleTable)
    requires |t.columns| >= 1
    requires forall k :: 0 <= k < |t.columns| ==> '\n' !in t.columns[k].name
    ensures Split(SelectFields(t), '\n') == SelectLines(t)
  {
    var lines := SelectLines(t);
    forall k | 0 <= k < |lines| ensures '\n' !in lines[k] {
      MapAt(SelectLine, t.columns, k);
      FieldLineOneLine(t.columns[k].name, EffectTypeOf(t.columns[k].typeName), SelectOptional(t.columns[k]));
    }
    SplitJoin(lines, '\n');
  }

  lemma FieldLineOneLine(name: string, effectType: string, optional: bool)
    requires '\n' !in name
    requires effectType in {"Schema.String", "Schema.Number", "Schema.BigInt", "Schema.Boolean", "Schema.Date", "Schema.Unknown"}
    ensures '\n' !in FieldLine(name, effectType, optional)
  {
  }

  /** The holes of the schema-file template. */
  datatype SchemaHole = SchemaTableName | SelectFieldsText | InsertFieldsText

  /** The schema file's import. */
  const SchemaImports: seq<Piece<SchemaHole>> := [
    Text("import { Schema } from 'effect'\n"),
    Text("\n")
  ]

  /** The select shape. */
  const SelectSchema: seq<Piece<SchemaHole>> := [
    Text("export const select"), Hole(SchemaTableName), Text("Schema = Schema.Struct({\n"),
    Hole(SelectFieldsText), Text("\n"),
    Text("})\n"),
    Text("\n")
  ]

  /** The insert shape. */
  const InsertSchema: seq<Piece<SchemaHole>> := [
    Text("export const insert"), Hole(SchemaTableName), Text("Schema = Schema.Struct({\n"),
    Hole(InsertFieldsText), Text("\n"),
    Text("})\n"),
    Text("\n")
  ]

  /** The types of the two shapes. */
  const SchemaTypes: seq<Piece<SchemaHole>> := [
    Text("export type Select"), Hole(SchemaTableName), Text(" = typeof select"), Hole(SchemaTableName), Text("Schema.Type\n"),
    Text("export type Insert"), Hole(SchemaTableName), Text(" = typeof insert"), Hole(SchemaTableName), Text("Schema.Type\n")
  ]

  /** The schema-file template. */
  const SchemaTemplate: seq<Piece<SchemaHole>> := SchemaImports + (SelectSchema + (InsertSchema + SchemaTypes))

  function SchemaFill(t: DrizzleTable): SchemaHole -> string {
    (h: SchemaHole) =>
      match h
      case SchemaTableName => t.name
      case SelectFieldsText => SelectFields(t)
      case InsertFieldsText => InsertFields(t)
  }

  /** `<name>-schemas` content: the select and insert shapes and their types. */
  function SchemaFile(t: DrizzleTable): string {
    Render(SchemaTemplate, SchemaFill(t))
  }

  /** The schema file holds the property lines of both shapes. */
  lemma SchemaFileHasShapes(t: DrizzleTable)
    ensures Contains(SchemaFile(t), SelectFields(t))
    ensures Contains(SchemaFile(t), InsertFields(t))
  {
    var fill := SchemaFill(t);
    assert SelectSchema[3] == Hole(SelectFieldsText);
    RenderHole(SelectSchema, fill, 3);
    RenderBefore(SelectSchema, InsertSchema + SchemaTypes, fill, SelectFields(t));
    RenderAfter(SchemaImports, SelectSchema + (InsertSchema + SchemaTypes), fill, SelectFields(t));
    assert InsertSchema[3] == Hole(InsertFieldsText);
    RenderHole(InsertSchema, fill, 3);
    RenderBefore(InsertSchema, SchemaTypes, fill, InsertFields(t));
    RenderAfter(SelectSchema, InsertSchema + SchemaTypes, fill, InsertFields(t));
    RenderAfter(SchemaImports, SelectSchema + (InsertSchema + SchemaTypes), fill, InsertFields(t));
  }

  /** The schema file declares `select<Name>Schema` with the select shape's
      lines. */
  lemma SchemaFileDeclaresSelect(t: DrizzleTable)
    ensures Contains(SchemaFile(t), "export const select" + t.name + "Schema = Schema.Struct({\n" + SelectFields(t) + "\n")
  {
    var fill := SchemaFill(t);
    var x := "export const select" + t.name + "Schema = Schema.Struct({\n" + SelectFields(t) + "\n";
    RenderRun5(SelectSchema, fill, 0, "export const select", SchemaTableName, "Schema = Schema.Struct({\n", SelectFieldsText, "\n");
    RenderBefore(SelectSchema, InsertSchema + SchemaTypes, fill, x);
    RenderAfter(SchemaImports, SelectSchema + (InsertSchema + SchemaTypes), fill, x);
  }

  /** The schema file declares `insert<Name>Schema` with the insert shape's
      lines. */
  lemma SchemaFileDeclaresInsert(t: DrizzleTable)
    ensures Contains(SchemaFile(t), "export const insert" + t.name + "Schema = Schema.Struct({\n" + InsertFields(t) + "\n")
  {
    var fill := SchemaFill(t);
    var x := "export const insert" + t.name + "Schema = Schema.Struct({\n" + InsertFields(t) + "\n";
    RenderRun5(InsertSchema, fill, 0, "export const insert", SchemaTableName, "Schema = Schema.Struct({\n", InsertFieldsText, "\n");
    RenderBefore(InsertSchema, SchemaTypes, fill, x);
    RenderAfter(SelectSchema, InsertSchema + SchemaTypes, fill, x);
    RenderAfter(SchemaImports, SelectSchema + (InsertSchema + SchemaTypes), fill, x);
  }

  /** The schema file declares the type `Select<Name>` of the select shape. */
  lemma SchemaFileHasSelectType(t: DrizzleTable)
    ensures Contains(SchemaFile(t), "export type Select" + t.name + " = typeof select" + t.name + "Schema.Type\n")
  {
    var fill := SchemaFill(t);
    var x := "export type Select" + t.name + " = typeof select" + t.name + "Schema.Type\n";
    RenderRun5(SchemaTypes, fill, 0, "export type Select", SchemaTableName, " = typeof select", SchemaTableName, "Schema.Type\n");
    SchemaTypesWithin(fill, x);
  }

  /** The schema file declares the type `Insert<Name>` of the insert shape. */
  lemma SchemaFileHasInsertType(t: DrizzleTable)
    ensures Contains(SchemaFile(t), "export type Insert" + t.name + " = typeof insert" + t.name + "Schema.Type\n")
  {
    var fill := SchemaFill(t);
    var y := "export type Insert" + t.name + " = typeof insert" + t.name + "Schema.Type\n";
    RenderRun5(SchemaTypes, fill, 5, "export type Insert", SchemaTableName, " = typeof insert", SchemaTableName, "Schema.Type\n");
    SchemaTypesWithin(fill, y);
  }

  /** Text of the type declarations is text of the schema file. */
  lemma SchemaTypesWithin(fill: SchemaHole -> string, x: string)
    requires Contains(Render(SchemaTypes, fill), x)
    ensures Contains(Render(SchemaTemplate, fill), x)
  {
    RenderAfter(InsertSchema, SchemaTypes, fill, x);
    RenderAfter(SelectSchema, InsertSchema + SchemaTypes, fill, x);
    RenderAfter(SchemaImports, SelectSchema + (InsertSchema + SchemaTypes), fill, x);
  }

  /** The column the by-id operations filter on: the first primary-key
      column, or `id` when there is none or its name is empty. */
  function PrimaryKeyName(columns: seq<DrizzleColumn>): (r: string)
    ensures r != []
    ensures forall k ::
      (0 <= k < |columns| && columns[k].isPrimaryKey && (forall j :: 0 <= j < k ==> !columns[j].isPrimaryKey))
      ==> r == (if columns[k].name == [] then "id" else columns[k].name)
    ensures (forall k :: 0 <= k < |columns| ==> !columns[k].isPrimaryKey) ==> r == "id"
  {
    match FirstIndex((c: DrizzleColumn) => c.isPrimaryKey, columns)
    case None => "id"
    case Some(i) => if columns[i].name != [] then columns[i].name else "id"
  }

  /** The filter every by-id operation of the service applies. */
  function WhereById(lower: string, key: string): string {
    ".where(eq(" + lower + "." + key + ", id))"
  }

  /** The holes of the service-file template. */
  datatype ServiceHole = TableName | TableLower | ByIdFilter

  /** The service-file template. */
  const ServiceTemplate: seq<Piece<ServiceHole>> := [
    Text("import * as PgDrizzle from '@effect/sql-drizzle/Pg'\n"),
    Text("import { eq } from 'drizzle-orm'\n"),
    Text("import { Context, Effect, Layer, Schema } from 'effect'\n"),
    Text("\n"),
    Text("import type { Insert"), Hole(TableName), Text(" } from '@workspace/database/effect/schemas/"), Hole(TableLower), Text("-schemas'\n"),
    Text("import { select"), Hole(TableName), Text("Schema } from '@workspace/database/effect/schemas/"), Hole(TableLower), Text("-schemas'\n"),
    Text("import { "), Hole(TableLower), Text(" } from '@workspace/database/schema'\n"),
    Text("\n"),
    Text("export class DatabaseError extends Schema.TaggedError<DatabaseError>()('DatabaseError', {\n"),
    Text("  cause: Schema.Unknown,\n"),
    Text("}) {}\n"),
    Text("\n"),
    Text("export class "), Hole(TableName), Text("NotFound extends Schema.TaggedError<"), Hole(TableName), Text("NotFound>()('"), Hole(TableName), Text("NotFound', {\n"),
    Text("  id: Schema.String,\n"),
    Text("}) {}\n"),
    Text("\n"),
    Text("const make"), Hole(TableName), Text("Service = Effect.gen(function* () {\n"),
    Text("  const drizzle = yield* PgDrizzle.PgDrizzle\n"),
    Text("\n"),
    Text("  return {\n"),
    Text("    getAll"), Hole(TableName), Text("s: drizzle\n"),
    Text("      .select()\n"),
    Text("      .from("), Hole(TableLower), Text(")\n"),
    Text("      .pipe(\n"),
    Text("        Effect.mapError(error => new DatabaseError({ cause: error })),\n"),
    Text("        Effect.flatMap(items =>\n"),
    Text("          Effect.all(items.map(item => Schema.decodeUnknown(select"), Hole(TableName), Text("Schema)(item)))\n"),
    Text("        )\n"),
    Text("      ),\n"),
    Text("\n"),
    Text("    get"), Hole(TableName), Text("ById: (id: string) =>\n"),
    Text("      drizzle\n"),
    Text("        .select()\n"),
    Text("        .from("), Hole(TableLower), Text(")\n"),
    Text("        "), Hole(ByIdFilter), Text("\n"),
    Text("        .limit(1)\n"),
    Text("        .pipe(\n"),
    Text("          Effect.mapError(error => new DatabaseError({ cause: error })),\n"),
    Text("          Effect.flatMap(result =>\n"),
    Text("            result[0] ? Effect.succeed(result[0]) : Effect.fail(new "), Hole(TableName), Text("NotFound({ id }))\n"),
    Text("          ),\n"),
    Text("          Effect.flatMap(item => Schema.decodeUnknown(select"), Hole(TableName), Text("Schema)(item))\n"),
    Text("        ),\n"),
    Text("\n"),
    Text("    create"), Hole(TableName), Text(": (data: Insert"), Hole(TableName), Text(") =>\n"),
    Text("      drizzle\n"),
    Text("        .insert("), Hole(TableLower), Text(")\n"),
    Text("        .values(data)\n"),
    Text("        .returning()\n"),
    Text("        .pipe(\n"),
    Text("          Effect.mapError(error => new DatabaseError({ cause: error })),\n"),
    Text("          Effect.flatMap(result =>\n"),
    Text("            result[0]\n"),
    Text("              ? Effect.succeed(result[0])\n"),
    Text("              : Effect.fail(new DatabaseError({ cause: 'No item returned after insert' }))\n"),
    Text("          ),\n"),
    Text("          Effect.flatMap(item => Schema.decodeUnknown(select"), Hole(TableName), Text("Schema)(item))\n"),
    Text("        ),\n"),
    Text("\n"),
    Text("    update"), Hole(TableName), Text(": (id: string, data: Partial<Insert"), Hole(TableName), Text(">) =>\n"),
    Text("      Effect.gen(function* () {\n"),
    Text("        const existing = yield* drizzle\n"),
    Text("          .select()\n"),
    Text("          .from("), Hole(TableLower), Text(")\n"),
    Text("          "), Hole(ByIdFilter), Text("\n"),
    Text("          .limit(1)\n"),
    Text("          .pipe(\n"),
    Text("            Effect.mapError(error => new DatabaseError({ cause: error })),\n"),
    Text("            Effect.flatMap(result =>\n"),
    Text("              result[0] ? Effect.succeed(result[0]) : Effect.fail(new "), Hole(TableName), Text("NotFound({ id }))\n"),
    Text("            )\n"),
    Text("          )\n"),
    Text("\n"),
    Text("        const [updated] = yield* drizzle\n"),
    Text("          .update("), Hole(TableLower), Text(")\n"),
    Text("          .set(data)\n"),
    Text("          "), Hole(ByIdFilter), Text("\n"),
    Text("          .returning()\n"),
    Text("          .pipe(\n"),
    Text("            Effect.mapError(error => new DatabaseError({ cause: error })),\n"),
    Text("            Effect.flatMap(result =>\n"),
    Text("              result.length > 0 ? Effect.succeed(result) : Effect.fail(new "), Hole(TableName), Text("NotFound({ id }))\n"),
    Text("            )\n"),
    Text("          )\n"),
    Text("\n"),
    Text("        return yield* Schema.decodeUnknown(select"), Hole(TableName), Text("Schema)(updated)\n"),
    Text("      }),\n"),
    Text("\n"),
    Text("    delete"), Hole(TableName), Text(": (id: string) =>\n"),
    Text("      Effect.gen(function* () {\n"),
    Text("        const existing = yield* drizzle\n"),
    Text("          .select()\n"),
    Text("          .from("), Hole(TableLower), Text(")\n"),
    Text("          "), Hole(ByIdFilter), Text("\n"),
    Text("          .limit(1)\n"),
    Text("          .pipe(\n"),
    Text("            Effect.mapError(error => new DatabaseError({ cause: error })),\n"),
    Text("            Effect.flatMap(result =>\n"),
    Text("              result[0] ? Effect.succeed(result[0]) : Effect.fail(new "), Hole(TableName), Text("NotFound({ id }))\n"),
    Text("            )\n"),
    Text("          )\n"),
    Text("\n"),
    Text("        yield* drizzle\n"),
    Text("          .delete("), Hole(TableLower), Text(")\n"),
    Text("          "), Hole(ByIdFilter), Text("\n"),
    Text("          .pipe(Effect.mapError(error => new DatabaseError({ cause: error })))\n"),
    Text("\n"),
    Text("        return yield* Schema.decodeUnknown(select"), Hole(TableName), Text("Schema)(existing)\n"),
    Text("      }),\n"),
    Text("  }\n"),
    Text("})\n"),
    Text("\n"),
    Text("export class "), Hole(TableName), Text("Service extends Context.Tag('"), Hole(TableName), Text("Service')<\n"),
    Text("  "), Hole(TableName), Text("Service,\n"),
    Text("  Effect.Effect.Success<typeof make"), Hole(TableName), Text("Service>\n"),
    Text(">() {\n"),
    Text("  static readonly Live = Layer.effect("), Hole(TableName), Text("Service, make"), Hole(TableName), Text("Service)\n"),
    Text("}\n")
  ]

  function ServiceFill(t: DrizzleTable): ServiceHole -> string {
    (h: ServiceHole) =>
      match h
      case TableName => t.name
      case TableLower => ToLower(t.name)
      case ByIdFilter => WhereById(ToLower(t.name), PrimaryKeyName(t.columns))
  }

  /** `<Name>Service` content: a Context tag whose layer offers getAll,
      getById, create, update and delete over the table. */
  function ServiceFile(t: DrizzleTable): string {
    Render(ServiceTemplate, ServiceFill(t))
  }

  /** The by-id lookups filter on the table's primary key column. */
  lemma ServiceFiltersOnPrimaryKey(t: DrizzleTable)
    ensures Contains(ServiceFile(t), WhereById(ToLower(t.name), PrimaryKeyName(t.columns)))
  {
    assert ServiceTemplate[175] == Hole(ByIdFilter);
    RenderHole(ServiceTemplate, ServiceFill(t), 175);
  }

  /** The service depends on the columns only through the primary key: two
      tables with the same name and key get the same service. */
  lemma ServiceDependsOnKeyOnly(t: DrizzleTable, u: DrizzleTable)
    requires t.name == u.name && PrimaryKeyName(t.columns) == PrimaryKeyName(u.columns)
    ensures ServiceFile(t) == ServiceFile(u)
  {
    RenderAgree(ServiceTemplate, ServiceFill(t), ServiceFill(u));
  }

  /** `<schemasDir>/schemas/<lower-case name>-schemas.ts` */
  function SchemaPath(schemasDir: string, t: DrizzleTable): string {
    PathJoin(PathJoin(schemasDir, "schemas"), ToLower(t.name) + "-schemas.ts")
  }

  /** `<servicesDir>/<Name>Service.ts` */
  function ServicePath(servicesDir: string, t: DrizzleTable): string {
    PathJoin(servicesDir, t.name + "Service.ts")
  }

  /** The two files written for one table. */
  function TableFiles(schemasDir: string, servicesDir: string, t: DrizzleTable): seq<FsOp> {
    [WriteFile(SchemaPath(schemasDir, t), SchemaFile(t)), WriteFile(ServicePath(servicesDir, t), ServiceFile(t))]
  }

  /** The files written for a list of tables, table by table. */
  function TablesFiles(schemasDir: string, servicesDir: string, tables: seq<DrizzleTable>): (r: seq<FsOp>)
    ensures |r| == 2 * |tables|
  {
    if tables == [] then []
    else
      TablesFiles(schemasDir, servicesDir, tables[..|tables| - 1]) +
      TableFiles(schemasDir, servicesDir, tables[|tables| - 1])
  }

  /** Table `k`'s schema and service files are the writes `2k` and `2k+1`. */
  lemma {:induction false} TablesFilesAt(schemasDir: string, servicesDir: string, tables: seq<DrizzleTable>, k: nat)
    requires k < |tables|
    ensures TablesFiles(schemasDir, servicesDir, tables)[2 * k] ==
      WriteFile(SchemaPath(schemasDir, tables[k]), SchemaFile(tables[k]))
    ensures TablesFiles(schemasDir, servicesDir, tables)[2 * k + 1] ==
      WriteFile(ServicePath(servicesDir, tables[k]), ServiceFile(tables[k]))
    decreases |tables|
  {
    var init := tables[..|tables| - 1];
    if k < |tables| - 1 {
      TablesFilesAt(schemasDir, servicesDir, init, k);
      assert init[k] == tables[k];
    }
  }

  lemma TablesFilesStep(schemasDir: string, servicesDir: string, tables: seq<DrizzleTable>, i: nat)
    requires i < |tables|
    ensures TablesFiles(schemasDir, servicesDir, tables[..i + 1]) ==
      TablesFiles(schemasDir, servicesDir, tables[..i]) + TableFiles(schemasDir, servicesDir, tables[i])
  {
    assert tables[..i + 1][..i] == tables[..i];
  }

  /** The body of the loop over the tables: the schema file, then the
      service file. */
  method WriteTableFiles(ops: seq<FsOp>, schemasDir: string, servicesDir: string, table: DrizzleTable)
    returns (ops': seq<FsOp>)
    ensures ops' == ops + TableFiles(schemasDir, servicesDir, table)
  {
    var schemaFile := SchemaFile(table);
    var schemaWrite := WriteFile(SchemaPath(schemasDir, table), schemaFile);
    var serviceFile := ServiceFile(table);
    var serviceWrite := WriteFile(ServicePath(servicesDir, table), serviceFile);
    ops' := ops + [schemaWrite];
    ops' := ops' + [serviceWrite];
    AppendAssoc(ops, [schemaWrite], [serviceWrite]);
  }

  /** Creates the two output directories, then writes both generated files
      of every table. */
  method GenerateDrizzleServices(tables: seq<DrizzleTable>, schemasDir: string, servicesDir: string)
    returns (ops: seq<FsOp>)
    ensures ops == [MakeDir(PathJoin(schemasDir, "schemas")), MakeDir(servicesDir)] +
      TablesFiles(schemasDir, servicesDir, tables)
  {
    ghost var dirs := [MakeDir(PathJoin(schemasDir, "schemas")), MakeDir(servicesDir)];
    ops := [MakeDir(PathJoin(schemasDir, "schemas")), MakeDir(servicesDir)];
    for i := 0 to |tables|
      invariant ops == dirs + TablesFiles(schemasDir, servicesDir, tables[..i])
    {
      ops := WriteTableFiles(ops, schemasDir, servicesDir, tables[i]);
      TablesFilesStep(schemasDir, servicesDir, tables, i);
      AppendAssoc(dirs, TablesFiles(schemasDir, servicesDir, tables[..i]), TableFiles(schemasDir, servicesDir, tables[i]));
    }
    assert tables[..|tables|] == tables;
  }
}
