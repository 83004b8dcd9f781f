# effex: the scaffolder's helpers and the schema-driven code generators

This project models the core of effex. effex is a command-line tool that
scaffolds an Effect + Drizzle/Prisma monorepo (`create-effex-app`) and
generates Effect Schema and service files from a database schema
(`effex-gen`). The model covers these parts:

- **Drizzle parser.** It finds every
  `export const X = pgTable("x", (t) => ({ ... }))` declaration in a schema
  text and reads the columns and flags of each one.
- **Drizzle generator.** For every table it emits an Effect Schema file
  (select and insert shapes) and a service file.
- **Prisma generator and AST queries.** These work over a parsed Prisma
  schema, given as a datatype. They cover the block queries, the relation
  check and the per-model files.
- **Database package scripts.**
  - `generate-effect-schemas` writes three files per table.
  - `fix-updated-at` rewrites `updatedAt` columns and counts the rewrites.
- **Scaffolding helpers.**
  - `replaceVariables`, the `{{name}}` template substitution.
  - The project-name validator.
  - The copy of the template tree.
  - The package-manager executable map.
- **The two generator commands.** They locate the schema file, choose the
  output directories and fail in the documented ways.

Each regular expression is a hand-written matcher over `seq<char>`, with
`\w` = `[A-Za-z0-9_]` and `\s` = the ECMAScript white-space and
line-terminator set. Most quantifiers in these patterns are followed by a
token they cannot consume, so the greedy run is the only one that can
succeed. Each such matcher therefore takes the maximal run
(`Strings.SpanWhile`) and needs no backtracking. There are two exceptions.
A trailing `(.*)` can succeed at any length; the maximal run up to a line
terminator is the one tried first, and so the one taken. The lazy
`([\s\S]*?)` of the definition pattern is not a greedy run: it ends at the
first `}, (` after the object opens. A global `exec` or `replace` loop becomes a scan
that resumes where the previous match ended. The table and export scans
are proved to return exactly the leftmost non-overlapping matches
(`DrizzleParser.ScanTablesGaps`, `EffectSchemas.ScanExportsLeftmost`).
The `updatedAt` rewrite's scan is proved to give ascending, non-overlapping
matches; that none starts in its gaps follows from its definition and has
no lemma.

The file system is not touched. Reads are parameters (`Result` values or
functions), existence tests are predicates, and writes and `mkdir` calls are
recorded as a sequence of `Fs.FsOp` values. A value built in steps by a loop
in the source is built by a Dafny method with the same loop. That method is
proved equal to a specification function, and the properties are proved as
lemmas about the function.

Module layout, one module per source file, plus support modules:

| module | file | models |
|---|---|---|
| `Wrappers`, `Seqs`, `Strings`, `Templates`, `Fs` | wrappers, seqs, strings, templates | `Option`/`Result`; filter/map/find; string scanning, `split`/`join`/`trim`/`replaceAll`; template literals as pieces; file operations |
| `PackageManagers` | package_manager | `getPackageManagerExecutable` |
| `TemplateVariables` | replace_variables | `replaceVariables` and its three tables |
| `ProjectNames` | validate | the project-name schema and `validateProjectName` |
| `CopyTemplates` | copy_templates | `copyTemplates`, `copyDirectorySync`, `shouldSkipFile` |
| `SchemaSearch` | schema_search | the schema lookup shared by both commands |
| `GenerateDrizzleCommand`, `GenerateServicesCommand` | generate_drizzle, generate_services | the two `effex-gen` commands |
| `DrizzleParser`, `DrizzleGenerator` | drizzle_parser, drizzle_generator | the Drizzle parser and generator |
| `DrizzleColumnText` | drizzle_column_text | the column pattern read back on declarations written in the table syntax |
| `DrizzleTableText` | drizzle_table_text | the table pattern read back on declarations written in the table syntax |
| `PrismaAst`, `PrismaGenerator` | prisma_ast, prisma_generator | the AST helpers and the Prisma generator |
| `EffectSchemas` | effect_schemas | the `generate-effect-schemas` script |
| `FixUpdatedAt` | fix_updated_at | the `fix-updated-at` script |

## Model

| member | source | states |
|---|---|---|
| PackageManagers.Executable | packages/create-effex-app/src/utils/package-manager.ts:3-14 | the result is `npx`, `bun` or `pnpm`; it is `npx` exactly when the manager is neither `bun` nor `pnpm` (so `npm` and every unknown value give `npx`), and otherwise it is the manager's own name |
| TemplateVariables.ReplaceVariables | packages/create-effex-app/src/utils/replace-variables.ts:19-52 | the loop that reassigns `result` once per variable computes the fold `Substitute` of the per-entry step over the variables in order |
| TemplateVariables.PackageManagerPlaceholders | packages/create-effex-app/src/utils/replace-variables.ts:1-33 | for a manager `pm`, `{{packageManager}}` becomes `pm@<version>`, `{{packageManagerExecutable}}` becomes the executable command and `{{packageManagerInstall}}` the install command from the tables; none of the three replacements disturbs the others' placeholders |
| TemplateVariables.OtherStringEntry | packages/create-effex-app/src/utils/replace-variables.ts:45-48 | any other string-valued key replaces every `{{key}}` by its value, and the placeholder alone becomes exactly the value (the inserted text is not rescanned) |
| TemplateVariables.FlagEntryUnchanged | packages/create-effex-app/src/utils/replace-variables.ts:22-48 | a non-string value for any key but `skipHusky` leaves the text unchanged |
| TemplateVariables.SkipHuskyEntry | packages/create-effex-app/src/utils/replace-variables.ts:34-44 | the quoted husky placeholder alone becomes `"prepare": "husky"` unless `skipHusky` is true, when it becomes the cleanup of the empty text; a text without the placeholder is left as it is, or only cleaned up when `skipHusky` is true |
| TemplateVariables.EntryWithoutBraces | packages/create-effex-app/src/utils/replace-variables.ts:22-48 | an entry for a key other than `skipHusky` leaves a text with no `{{` unchanged |
| TemplateVariables.SubstituteWithoutBraces | packages/create-effex-app/src/utils/replace-variables.ts:19-52 | without a `skipHusky` variable, content with no `{{` is returned unchanged |
| TemplateVariables.SubstituteIgnoresCleanup | packages/create-effex-app/src/utils/replace-variables.ts:34-44 | without a `skipHusky` variable the cleanup regexes have no effect on the result |
| ProjectNames.ValidateProjectName | packages/create-effex-app/src/utils/validate.ts:30-42 | success exactly when the name decodes and does not exist, and then the name is returned unchanged; `ProjectAlreadyExists(name)` exactly when it decodes but exists; any other failure is the decoding failure |
| ProjectNames.DecodeAccepts | packages/create-effex-app/src/utils/validate.ts:11-28 | a name is accepted exactly when it is non-empty, every character is an ASCII letter, digit, `-` or `_`, and its lower-case form is not reserved; an accepted name is returned as it is |
| ProjectNames.AcceptedIsSegment | packages/create-effex-app/src/utils/validate.ts:11-28 | an accepted name contains no `/` or `\` and is neither `.` nor `..` |
| ProjectNames.ReservedIgnoresCase | packages/create-effex-app/src/utils/validate.ts:13-24 | `NODE_MODULES` is refused as a reserved name |
| ProjectNames.ReservedBeforePattern | packages/create-effex-app/src/utils/validate.ts:22-27 | `.git` is refused as reserved, not by the name pattern, because the refinements report the first failure in order |
| ProjectNames.SpacesRefused | packages/create-effex-app/src/utils/validate.ts:17-27 | a leading space fails the trimmed check; an inner space passes it and fails the name pattern |
| ProjectNames.SeparatorRefused | packages/create-effex-app/src/utils/validate.ts:11-21 | `a/b` fails the invalid-character check |
| CopyTemplates.CopyDirectorySync | packages/create-effex-app/src/utils/copy-templates.ts:44-74 | the loop plus recursion appends exactly `CopyDirectory(source, destination, ...)` to the operations: `mkdir` of the destination, then each entry's operations in listing order |
| CopyTemplates.CopyEntrySync | packages/create-effex-app/src/utils/copy-templates.ts:52-72 | one loop iteration appends that entry's operations: nothing for a skipped file, a recursive copy for a directory, one write to the stripped name for a file |
| CopyTemplates.CopyTemplates | packages/create-effex-app/src/utils/copy-templates.ts:14-30 | the whole template tree is copied into the target path with the variables `projectName` and `packageManager` |
| CopyTemplates.CopyDirectoryWrites | packages/create-effex-app/src/utils/copy-templates.ts:44-74 | the contents written are exactly the contents of the template files that are not skipped, in tree order, each passed through `replaceVariables` |
| CopyTemplates.CopyEntryWrites | packages/create-effex-app/src/utils/copy-templates.ts:54-72 | one entry writes its own processed template files and nothing else |
| CopyTemplates.CopyEntriesWrites | packages/create-effex-app/src/utils/copy-templates.ts:51-73 | a listing writes the processed files of its entries, in order |
| CopyTemplates.CopyEntryEmpty | packages/create-effex-app/src/utils/copy-templates.ts:37-56 | an entry produces no operation exactly when `shouldSkipFile` holds for it |
| CopyTemplates.CopyEntriesFiltered | packages/create-effex-app/src/utils/copy-templates.ts:51-56 | copying a listing is copying the entries that pass the skip filter |
| CopyTemplates.PnpmKeepsEverything | packages/create-effex-app/src/utils/copy-templates.ts:37-42 | with `pnpm` no entry is skipped |
| CopyTemplates.OthersSkipWorkspace | packages/create-effex-app/src/utils/copy-templates.ts:37-42 | with any other package manager exactly the `pnpm-workspace.yaml` entries are skipped |
| CopyTemplates.DestinationStripsExtension | packages/create-effex-app/src/utils/copy-templates.ts:62-64 | an entry ending in `.template` is written under its name without that suffix; any other name is copied verbatim |
| CopyTemplates.CopyEntryInside | packages/create-effex-app/src/utils/copy-templates.ts:58-72 | every path an entry creates or writes starts with the destination followed by `/` (a file named exactly `.template` is written to that prefix itself) |
| CopyTemplates.CopyEntriesInside | packages/create-effex-app/src/utils/copy-templates.ts:51-73 | so does every path a listing creates or writes |
| CopyTemplates.ProcessedWithoutBraces | packages/create-effex-app/src/utils/copy-templates.ts:69-71 | a template file without `{{` is written unchanged |
| CopyTemplates.ProjectNamePlaceholder | packages/create-effex-app/src/utils/copy-templates.ts:25-28 | `{{projectName}}` is written as the project name |
| SchemaSearch.FindSchema | packages/effex-gen/src/commands/generate-drizzle.ts:18-33 | the loop with early return yields the resolved form of the first candidate that exists, or none |
| SchemaSearch.FirstExistingSpec | packages/effex-gen/src/commands/generate-drizzle.ts:18-33 | none is found exactly when no candidate exists; otherwise the result is a candidate that exists and no earlier candidate exists |
| SchemaSearch.ChooseSchemaPath | packages/effex-gen/src/commands/generate-drizzle.ts:51-55 | a non-empty given path wins; an absent or empty given path falls back to the search, whose empty result also counts as none |
| SchemaSearch.LocateSchemaPath | packages/effex-gen/src/commands/generate-drizzle.ts:51-69 | the command's opening steps compute `LocateSchema`: search only without a usable path, fail with "not found" without any path and with "does not exist" for a missing file |
| SchemaSearch.LocateSchemaSpec | packages/effex-gen/src/commands/generate-drizzle.ts:51-69 | a located path exists and is non-empty; a non-empty given path is used or reported missing; an empty given path is the same as none; without one, "not found" exactly when the search finds nothing usable |
| GenerateDrizzleCommand.FindDrizzleSchema | packages/effex-gen/src/commands/generate-drizzle.ts:18-33 | the first existing one of `./src/schema.ts`, `./packages/database/src/schema.ts`, `../database/src/schema.ts`, resolved |
| GenerateDrizzleCommand.PrepareDrizzle | packages/effex-gen/src/commands/generate-drizzle.ts:49-88 | the command up to the generator call computes `GenerateDrizzleOutcome`: location failure, read failure, no tables, or tables with the chosen directories |
| GenerateDrizzleCommand.GenerateDrizzle | packages/effex-gen/src/commands/generate-drizzle.ts:49-103 | the outcome as above, and the file operations are those of `generateDrizzleServices` on the parsed tables when it generates and none otherwise |
| GenerateDrizzleCommand.GeneratedSpec | packages/effex-gen/src/commands/generate-drizzle.ts:55-90 | a generating run used an existing, readable schema with at least one table, generated exactly its parsed tables and used the chosen directories |
| GenerateDrizzleCommand.NothingGeneratedSpec | packages/effex-gen/src/commands/generate-drizzle.ts:82-88 | zero tables give the no-tables outcome and no generation; an unreadable schema fails with the reader's message and the path |
| GenerateDrizzleCommand.DefaultDirs | packages/effex-gen/src/commands/generate-drizzle.ts:35-77 | the default directories depend only on whether the path contains `packages/database`; an explicit option overrides the default |
| GenerateDrizzleCommand.EmptySchemaPathIgnored | packages/effex-gen/src/commands/generate-drizzle.ts:51-55 | `--schema-path ""` behaves exactly as if no path were given |
| GenerateServicesCommand.FindPrismaSchema | packages/effex-gen/src/commands/generate-services.ts:15-30 | the first existing one of the three Prisma candidates, resolved |
| GenerateServicesCommand.DefaultOutputDir | packages/effex-gen/src/commands/generate-services.ts:32-37 | `./src/generated/effect` resolved, whatever the schema path |
| GenerateServicesCommand.GenerateServices | packages/effex-gen/src/commands/generate-services.ts:39-69 | the command computes the request handed to the generator, or the location failure |
| GenerateServicesCommand.RequestSpec | packages/effex-gen/src/commands/generate-services.ts:41-63 | the command fails exactly when the location step does, with its error; otherwise the schema path exists and the output directory is the resolved option, else `./src/generated/effect` |
| DrizzleParser.SpacesThen | packages/effex-gen/src/parsers/drizzle-parser.ts:38-39 | a `\s*lit` step of the table pattern ends after the literal and within the text |
| DrizzleParser.MatchHead | packages/effex-gen/src/parsers/drizzle-parser.ts:38-39 | the head `export\s+const\s+(\w+)\s+=\s+pgTable\s*\(` captures a word, in ascending bounds |
| DrizzleParser.MatchQuotedName | packages/effex-gen/src/parsers/drizzle-parser.ts:38-39 | the quoted table name is a word |
| DrizzleParser.MatchColumnsBlock | packages/effex-gen/src/parsers/drizzle-parser.ts:38-39 | the `([^}]+)` group is non-empty and holds no `}` |
| DrizzleParser.MatchTableAt | packages/effex-gen/src/parsers/drizzle-parser.ts:38-39 | a table match starts where it is tried and ends within the text after its start |
| DrizzleParser.MatchTableAtGroups | packages/effex-gen/src/parsers/drizzle-parser.ts:38-39 | both names are words and the column block is non-empty and has no `}`, so a block containing `}` is not recognised as a table; the converse is `DrizzleTableText.MatchTableAtDecl` |
| DrizzleTableText.MatchTableAtDecl | packages/effex-gen/src/parsers/drizzle-parser.ts:38-39 | every declaration `export const X = pgTable('x', (t) => ({B}))` is matched where it starts. Between its tokens it may have any white space the pattern admits, with at least one character where the pattern has `\s+`. Its names are words, each quote is `'` or `"`, and `B` is non-empty without `}`. The match ends at the declaration's end and captures exactly `X`, `x` and `B` |
| DrizzleParser.FindTable | packages/effex-gen/src/parsers/drizzle-parser.ts:49-61 | one `exec` from `lastIndex` returns the leftmost match at or after it, or none when the pattern matches nowhere after it |
| DrizzleParser.FindTableAt | packages/effex-gen/src/parsers/drizzle-parser.ts:49-61 | when a match starts at `p` and none starts between `lastIndex` and `p`, `exec` returns that match |
| DrizzleParser.ScanTablesAt | packages/effex-gen/src/parsers/drizzle-parser.ts:51-62 | under the same condition the scan returns that match, then the scan resumed at its end: with `MatchTableAtDecl`, declarations come back in the order they are written |
| DrizzleParser.ScanTablesCons | packages/effex-gen/src/parsers/drizzle-parser.ts:51-62 | a scan is its first match followed by the scan resumed at that match's end |
| DrizzleParser.ScanTablesMatchAt | packages/effex-gen/src/parsers/drizzle-parser.ts:51-62 | every match of the scan is a match of the table pattern at its own start |
| DrizzleParser.ScanTablesGaps | packages/effex-gen/src/parsers/drizzle-parser.ts:51-62 | matches come in text order without overlap, and no declaration lies between two consecutive ones |
| DrizzleParser.ScanTablesFirst | packages/effex-gen/src/parsers/drizzle-parser.ts:51-62 | the first match is the leftmost declaration; an empty scan means the pattern matches nowhere |
| DrizzleParser.TablesAt | packages/effex-gen/src/parsers/drizzle-parser.ts:53-59 | table `k` is the `k`-th declaration, named by its export binding (never empty, so the literal-name fallback never applies), with the columns of its own block |
| DrizzleParser.ParseTables | packages/effex-gen/src/parsers/drizzle-parser.ts:48-64 | the `exec` loop pushing tables computes `Tables(content)` |
| DrizzleParser.ParseDrizzleSchema | packages/effex-gen/src/parsers/drizzle-parser.ts:43-70 | a failed read gives `FileReadError` with the reader's message and the schema path; a successful one gives the tables of the content |
| DrizzleParser.MatchColumnAt | packages/effex-gen/src/parsers/drizzle-parser.ts:41 | the column pattern's name and type captures are words |
| DrizzleParser.ParseColumns | packages/effex-gen/src/parsers/drizzle-parser.ts:72-96 | the loop over the non-blank lines computes `ColumnsOf(columnsStr)` |
| DrizzleParser.PushColumns | packages/effex-gen/src/parsers/drizzle-parser.ts:77-93 | the `for` loop pushes one column per line the column pattern matches: its result is `ColumnsOfLines` of the lines |
| DrizzleColumnText.ColumnLineRoundTrip | packages/effex-gen/src/parsers/drizzle-parser.ts:41 | an indented `name:<spaces>t.type(args)modifiers` line, with word name and type, no `)` in the arguments and no line terminator in the modifiers, is matched with exactly that name, type and modifier chain |
| DrizzleColumnText.DeclLinesColumns | packages/effex-gen/src/parsers/drizzle-parser.ts:72-96 | a block of such declaration lines is read back as the columns they declare, one per line and in order |
| DrizzleColumnText.FindColumnAfter | packages/effex-gen/src/parsers/drizzle-parser.ts:41 | `match` without the global flag returns the leftmost match: positions without a word character before it are passed over |
| DrizzleParser.ColumnsOfLinesFilter | packages/effex-gen/src/parsers/drizzle-parser.ts:75-93 | the columns are, in line order, one per line the column pattern matches; a line it does not match is skipped without error |
| DrizzleParser.ColumnsOfBound | packages/effex-gen/src/parsers/drizzle-parser.ts:75-93 | a block yields at most one column per non-blank line, and each column comes from a matching line of the block |
| DrizzleParser.DefaultCallCounts | packages/effex-gen/src/parsers/drizzle-parser.ts:90 | any `.default...` call, such as `.defaultNow()`, sets `hasDefault` |
| DrizzleGenerator.EffectTypeFamilies | packages/effex-gen/src/generators/drizzle-service-generator.ts:6-23 | the type map is total: the string, number, date, `bigint` and `boolean` families map to their Effect types, and every other type, JSON types included, maps to `Schema.Unknown` |
| DrizzleGenerator.InsertColumnsExact | packages/effex-gen/src/generators/drizzle-service-generator.ts:34-35 | a column is in the insert shape exactly when it is not both primary key and defaulted |
| DrizzleGenerator.SelectFieldsLines | packages/effex-gen/src/generators/drizzle-service-generator.ts:26-32 | splitting the select text at newlines gives back exactly one line per column, in column order |
| DrizzleGenerator.FieldLineOneLine | packages/effex-gen/src/generators/drizzle-service-generator.ts:26-32 | a property line holds no newline when the column name has none |
| DrizzleGenerator.SchemaFileHasShapes | packages/effex-gen/src/generators/drizzle-service-generator.ts:44-56 | the schema file contains both the select and the insert property lines |
| DrizzleGenerator.SchemaFileDeclaresSelect | packages/effex-gen/src/generators/drizzle-service-generator.ts:46-48 | the schema file declares `select<Name>Schema` as a `Schema.Struct` whose body is the select shape's lines |
| DrizzleGenerator.SchemaFileDeclaresInsert | packages/effex-gen/src/generators/drizzle-service-generator.ts:50-52 | the schema file declares `insert<Name>Schema` as a `Schema.Struct` whose body is the insert shape's lines |
| DrizzleGenerator.SchemaFileHasSelectType | packages/effex-gen/src/generators/drizzle-service-generator.ts:54 | the schema file declares `Select<Name>` as the type of `select<Name>Schema` |
| DrizzleGenerator.SchemaFileHasInsertType | packages/effex-gen/src/generators/drizzle-service-generator.ts:55 | the schema file declares `Insert<Name>` as the type of `insert<Name>Schema` |
| DrizzleGenerator.PrimaryKeyName | packages/effex-gen/src/generators/drizzle-service-generator.ts:61 | the key is non-empty and is the first primary-key column's name when that is non-empty; with no primary-key column it is `id` |
| DrizzleGenerator.ServiceFiltersOnPrimaryKey | packages/effex-gen/src/generators/drizzle-service-generator.ts:59-181 | the service text contains the by-id filter on the table's primary key |
| DrizzleGenerator.ServiceDependsOnKeyOnly | packages/effex-gen/src/generators/drizzle-service-generator.ts:59-181 | two tables with the same name and primary key get the same service file |
| DrizzleGenerator.TablesFiles | packages/effex-gen/src/generators/drizzle-service-generator.ts:192-199 | two writes per table |
| DrizzleGenerator.TablesFilesAt | packages/effex-gen/src/generators/drizzle-service-generator.ts:192-199 | write `2k` is table `k`'s schema file at `<schemasDir>/schemas/<lower-case name>-schemas.ts`; write `2k+1` is its service file at `<servicesDir>/<Name>Service.ts` |
| DrizzleGenerator.WriteTableFiles | packages/effex-gen/src/generators/drizzle-service-generator.ts:193-198 | one loop iteration appends the table's schema file and then its service file |
| DrizzleGenerator.GenerateDrizzleServices | packages/effex-gen/src/generators/drizzle-service-generator.ts:184-202 | both directories are created, then the files of every table are written in table order |
| PrismaAst.BlocksOfKind | src/prisma-ast-utils.ts:12-54 | `getModels`, `getEnums` and `getGenerators` succeed exactly when the list exists; the result holds exactly the list's blocks of that kind; a missing list is an `ASTError` with the engine's message |
| PrismaAst.FindBlock | src/prisma-ast-utils.ts:34-68 | `getDatasource` and `getModelByName` find a block exactly when one satisfies the test, and then the first one; a missing list is an `ASTError` |
| PrismaAst.ModelsAndEnumsDisjoint | src/prisma-ast-utils.ts:16-27 | no block is both among the models and among the enums |
| PrismaAst.GetModelByNameFinds | src/prisma-ast-utils.ts:56-68 | a model is found by name exactly when the name is among the models' names |
| PrismaAst.TraverseAst | src/prisma-ast-utils.ts:70-77 | the visitor is applied to the blocks in order, once each, until the first failure, which is returned; a missing list is a crash before any visit |
| PrismaAst.FieldRelationErrors | src/prisma-ast-utils.ts:89-101 | the inner loops collect one error line per `relation` attribute of a field whose type is not a model |
| PrismaAst.ModelRelationErrors | src/prisma-ast-utils.ts:87-103 | the errors of one model, over its properties in order |
| PrismaAst.ValidateRelations | src/prisma-ast-utils.ts:79-113 | the nested loops compute `RelationCheck`: the error lines in declaration order, joined after `Relation validation failed:` when non-empty |
| PrismaAst.AttributeErrors | src/prisma-ast-utils.ts:91-99 | at most one error per attribute |
| PrismaAst.AttributeErrorsEmpty | src/prisma-ast-utils.ts:90-99 | a property contributes no error exactly when it is not a dangling relation |
| PrismaAst.PropertiesErrorsEmpty | src/prisma-ast-utils.ts:88-102 | a model's properties contribute no error exactly when none is dangling |
| PrismaAst.ModelsErrorsEmpty | src/prisma-ast-utils.ts:87-104 | the models contribute no error exactly when every model's relations are declared |
| PrismaAst.RelationCheckPasses | src/prisma-ast-utils.ts:106-112 | the check succeeds, with the empty list, exactly when every relation field of every model names a declared model |
| PrismaGenerator.EffectTypeFamilies | packages/effex-gen/src/generators/prisma-service-generator.ts:38-52 | the type map is total, with unknown types mapping to `Schema.Unknown`; a list field is exactly `Schema.Array(<base>)` |
| PrismaGenerator.InsertFieldsExact | packages/effex-gen/src/generators/prisma-service-generator.ts:34-64 | a property is in the insert shape exactly when it is a `field` with no `@id` attribute |
| PrismaGenerator.SchemaFileHasShapes | packages/effex-gen/src/generators/prisma-service-generator.ts:54-83 | the schema file contains both shapes' property lines |
| PrismaGenerator.SchemaFileDeclaresSelect | packages/effex-gen/src/generators/prisma-service-generator.ts:75-77 | the schema file declares `select<Name>Schema` as a `Schema.Struct` whose body is the select shape's lines |
| PrismaGenerator.SchemaFileDeclaresInsert | packages/effex-gen/src/generators/prisma-service-generator.ts:79-81 | the schema file declares `insert<Name>Schema` as a `Schema.Struct` whose body is the insert shape's lines |
| PrismaGenerator.SelectFieldsLines | packages/effex-gen/src/generators/prisma-service-generator.ts:54-62 | splitting the select text at newlines gives back exactly one line per field, in field order, when no field name holds a newline |
| PrismaGenerator.InsertFieldsLines | packages/effex-gen/src/generators/prisma-service-generator.ts:64-71 | the same for the insert text and the fields without `@id` |
| PrismaGenerator.ServiceDeclaresNotFound | packages/effex-gen/src/generators/prisma-service-generator.ts:97-99 | the service declares `export class <Name>NotFound extends Data.TaggedError('<Name>NotFound')` |
| PrismaGenerator.ServiceFailsNotFound | packages/effex-gen/src/generators/prisma-service-generator.ts:141-151 | the service fails with `new <Name>NotFound({ id: 'unknown' })` when a nullable lookup returns nothing |
| PrismaGenerator.ServiceFileOfName | packages/effex-gen/src/generators/prisma-service-generator.ts:85-281 | the service uses the client delegate under the lower-case model name and depends on the model's name only |
| PrismaGenerator.ModelsFiles | packages/effex-gen/src/generators/prisma-service-generator.ts:294-301 | two writes per model |
| PrismaGenerator.ModelsFilesAt | packages/effex-gen/src/generators/prisma-service-generator.ts:294-301 | write `2k` is model `k`'s `schemas/<lower>-schemas.ts`; write `2k+1` is its `services/<Name>Service.ts` |
| PrismaGenerator.GeneratorModelsAreAstModels | packages/effex-gen/src/generators/prisma-service-generator.ts:290-292 | the generator processes exactly the blocks `getModels` returns |
| PrismaGenerator.WriteModel | packages/effex-gen/src/generators/prisma-service-generator.ts:295-300 | one loop iteration appends the model's schema file and then its service file |
| PrismaGenerator.GenerateEffectServices | packages/effex-gen/src/generators/prisma-service-generator.ts:283-304 | both directories are created, and then the files of every `model` block are written in order |
| EffectSchemas.MatchExportAt | packages/create-effex-app/templates/packages/database/scripts/generate-effect-schemas.ts:44-45 | a match of the export pattern captures a word and spans exactly its export text |
| EffectSchemas.MatchExportAtComplete | packages/create-effex-app/templates/packages/database/scripts/generate-effect-schemas.ts:44-45 | conversely, wherever a word's export text occurs it is matched with that word |
| EffectSchemas.FindExport | packages/create-effex-app/templates/packages/database/scripts/generate-effect-schemas.ts:44-52 | one `exec` finds a non-empty name after `lastIndex` |
| EffectSchemas.FindExportLeftmost | packages/create-effex-app/templates/packages/database/scripts/generate-effect-schemas.ts:44-52 | the match found is the leftmost one at or after `lastIndex` |
| EffectSchemas.ScanExportsLeftmost | packages/create-effex-app/templates/packages/database/scripts/generate-effect-schemas.ts:47-55 | the scan is the sequence of leftmost non-overlapping matches, with nothing matching before, between or after them |
| EffectSchemas.TableNamesDeclared | packages/create-effex-app/templates/packages/database/scripts/generate-effect-schemas.ts:43-58 | every name found is a word whose `export const <name> = pgTable(` occurs in the text |
| EffectSchemas.ExtractTableNames | packages/create-effex-app/templates/packages/database/scripts/generate-effect-schemas.ts:43-58 | the `exec` loop pushing names computes `TableNames`, the export names in order of occurrence |
| EffectSchemas.MatchDefinitionAtSpec | packages/create-effex-app/templates/packages/database/scripts/generate-effect-schemas.ts:65-68 | a definition match is the pattern's head for that table, a word, `', {`, the captured text and `}, (`. No `}, (` starts inside the capture: it stops at the first `}, (` after the object opens |
| EffectSchemas.MatchDefinitionAtText | packages/create-effex-app/templates/packages/database/scripts/generate-effect-schemas.ts:65-68 | the converse: where such a text stands, the pattern matches there and captures exactly its object text |
| EffectSchemas.MatchDefinitionAtSome | packages/create-effex-app/templates/packages/database/scripts/generate-effect-schemas.ts:65-69 | the pattern matches wherever its head, a word and `', {` stand with some `}, (` after them |
| EffectSchemas.FindDefinitionLeftmost | packages/create-effex-app/templates/packages/database/scripts/generate-effect-schemas.ts:65-70 | the definition found is the leftmost match |
| EffectSchemas.ColumnKindOf | packages/create-effex-app/templates/packages/database/scripts/generate-effect-schemas.ts:100-113 | the first rule that applies wins: array, then `integer`/`boolean`/`timestamp`/`doublePrecision`, then enum for names ending in `Status`, `Type` or `Role`, and text otherwise |
| EffectSchemas.ColumnInfoOf | packages/create-effex-app/templates/packages/database/scripts/generate-effect-schemas.ts:96-113 | `isArray` iff `.array()` occurs, and iff the kind is array; a column is optional exactly when it lacks `.notNull()` or is an array with `.default(`, both directions for array and non-array columns; the kind is `ColumnKindOf` of the type name and the array flag |
| EffectSchemas.ColumnOfLine | packages/create-effex-app/templates/packages/database/scripts/generate-effect-schemas.ts:80-94 | blank and `//` lines give no column; a column's name is a word |
| EffectSchemas.ColumnLineRoundTrip | packages/create-effex-app/templates/packages/database/scripts/generate-effect-schemas.ts:80-118 | an indented `name: type(args)modifiers` line is read back as the column with that name, type and modifier chain |
| EffectSchemas.TableInfoOf | packages/create-effex-app/templates/packages/database/scripts/generate-effect-schemas.ts:60-124 | the result is "Could not find table definition for <name>" exactly when the first match is missing or captures the empty text (`!match?.[1]`); otherwise it carries the table's name and the columns read from the lines of the captured text |
| EffectSchemas.ExtractTableInfo | packages/create-effex-app/templates/packages/database/scripts/generate-effect-schemas.ts:60-124 | the loop over the lines with `columnType` reassigned computes `TableInfoOf` |
| EffectSchemas.KebabInsertChars | packages/create-effex-app/templates/packages/database/scripts/generate-effect-schemas.ts:126 | the replace only inserts hyphens |
| EffectSchemas.ToKebabCaseIdempotent | packages/create-effex-app/templates/packages/database/scripts/generate-effect-schemas.ts:126 | the output has no ASCII capital, and converting it again changes nothing |
| EffectSchemas.ToKebabCaseNoSlash | packages/create-effex-app/templates/packages/database/scripts/generate-effect-schemas.ts:126 | a name without `/` keeps none |
| EffectSchemas.InsertSchemaOverridesArrays | packages/create-effex-app/templates/packages/database/scripts/generate-effect-schemas.ts:143-151 | with array columns, the insert schema spreads the derived fields and adds the overrides |
| EffectSchemas.SelectSchemaOverridesArrays | packages/create-effex-app/templates/packages/database/scripts/generate-effect-schemas.ts:143-151 | so does the select schema |
| EffectSchemas.SchemaFileOverridesColumn | packages/create-effex-app/templates/packages/database/scripts/generate-effect-schemas.ts:143-170 | every array column's override line is in the schema file |
| EffectSchemas.TypesFileImportsSchemas | packages/create-effex-app/templates/packages/database/scripts/generate-effect-schemas.ts:186-198 | the types file imports from the schema module of the same kebab name |
| EffectSchemas.FormSchemaFileImportsSchemas | packages/create-effex-app/templates/packages/database/scripts/generate-effect-schemas.ts:173-184 | so does the form-schema file |
| EffectSchemas.LastSlashIsLast | packages/create-effex-app/templates/packages/database/scripts/generate-effect-schemas.ts:22 | `lastIndexOf('/')` finds a `/` with none after it, or -1 |
| EffectSchemas.DirNameOfJoin | packages/create-effex-app/templates/packages/database/scripts/generate-effect-schemas.ts:22 | the directory of `join(dir, entry)` is `dir` for an entry without `/` |
| EffectSchemas.WriteSchemaFile | packages/create-effex-app/templates/packages/database/scripts/generate-effect-schemas.ts:19-29 | the directory is created when it is not yet known to exist, then the file is written |
| EffectSchemas.WriteTableFiles | packages/create-effex-app/templates/packages/database/scripts/generate-effect-schemas.ts:218-230 | one found table's three files are written in order |
| EffectSchemas.GenerateEffectSchemas | packages/create-effex-app/templates/packages/database/scripts/generate-effect-schemas.ts:200-238 | the loop of `main` computes the operations and error of `Generate` |
| EffectSchemas.WriteTables | packages/create-effex-app/templates/packages/database/scripts/generate-effect-schemas.ts:215-232 | the `for` loop over the table names computes the operations and the error of `RunTables`, stopping at the first table whose definition is missing |
| EffectSchemas.TableFilesInOutputDir | packages/create-effex-app/templates/packages/database/scripts/generate-effect-schemas.ts:220-228 | each table has exactly three files, all in the output directory |
| EffectSchemas.RunPlansError | packages/create-effex-app/templates/packages/database/scripts/generate-effect-schemas.ts:215-232 | the run stops on the error of the first table whose definition is missing |
| EffectSchemas.RunPlansWrites | packages/create-effex-app/templates/packages/database/scripts/generate-effect-schemas.ts:215-232 | when every definition is found, the output directory is created once, before the first file, and every table's files are written in order |
| EffectSchemas.RunPlansStopsAt | packages/create-effex-app/templates/packages/database/scripts/generate-effect-schemas.ts:215-232 | a run that stops at a missing definition has written exactly the files of the tables before it |
| EffectSchemas.TablePlansOfNames | packages/create-effex-app/templates/packages/database/scripts/generate-effect-schemas.ts:215-232 | the tables of a schema write only into the output directory, and a missing one stops with its not-found message |
| EffectSchemas.GenerateOutcome | packages/create-effex-app/templates/packages/database/scripts/generate-effect-schemas.ts:200-238 | a schema without tables stops with "No tables found in schema" before writing; otherwise the run is that of its tables |
| EffectSchemas.GenerateReadFailure | packages/create-effex-app/templates/packages/database/scripts/generate-effect-schemas.ts:240-248 | an unreadable schema stops with "Failed to read schema file: ..." before anything is done |
| FixUpdatedAt.MatchAt | packages/create-effex-app/templates/packages/database/scripts/fix-updated-at.ts:20 | a match of the column pattern ends after its start and within the text |
| FixUpdatedAt.MatchAtSpec | packages/create-effex-app/templates/packages/database/scripts/fix-updated-at.ts:20 | the pattern matches from `p` to `e` exactly when `s[p..e]` is `\s+updatedAt:\s*timestamp(<non-empty args without ')'>).notNull()` with maximal runs and no `.$onUpdate` at `e` |
| FixUpdatedAt.CandidateSpec | packages/create-effex-app/templates/packages/database/scripts/fix-updated-at.ts:20 | the pattern without its lookahead matches exactly the column shape above |
| FixUpdatedAt.ReplaceGlobal | packages/create-effex-app/templates/packages/database/scripts/fix-updated-at.ts:22-25 | the global replace with a counting callback computes `ReplaceMatches` for any matcher that advances |
| FixUpdatedAt.FixUpdatedAtFields | packages/create-effex-app/templates/packages/database/scripts/fix-updated-at.ts:12-27 | the rewritten content and the count are those of `Fix(content)` |
| FixUpdatedAt.FixSchemaFile | packages/create-effex-app/templates/packages/database/scripts/fix-updated-at.ts:12-40 | a failed read passes its error on; a successful one writes the fixed content back to the schema path and reports the count |
| FixUpdatedAt.ReplaceInserts | packages/create-effex-app/templates/packages/database/scripts/fix-updated-at.ts:22-25 | the global replace inserts the replacement after each leftmost non-overlapping match and leaves the rest of the text unchanged; the count is the number of matches |
| FixUpdatedAt.Matches | packages/create-effex-app/templates/packages/database/scripts/fix-updated-at.ts:20-25 | the matches are ascending, non-overlapping and each is a match of the pattern |
| FixUpdatedAt.FixInserts | packages/create-effex-app/templates/packages/database/scripts/fix-updated-at.ts:20-25 | the fixed text is the original with `.$onUpdate(() => new Date())` inserted after each match, and the count is the number of matches |
| FixUpdatedAt.FixMatchIsColumn | packages/create-effex-app/templates/packages/database/scripts/fix-updated-at.ts:20 | each rewritten segment is an `updatedAt` timestamp column with `.notNull()` and without a following `.$onUpdate` |
| FixUpdatedAt.ReplaceLength | packages/create-effex-app/templates/packages/database/scripts/fix-updated-at.ts:22-25 | the output is the input lengthened by the replacement's length once per counted change |
| FixUpdatedAt.FixLength | packages/create-effex-app/templates/packages/database/scripts/fix-updated-at.ts:18-25 | `changesCount` counts exactly the insertions: the length grows by the suffix's length times the count |
| FixUpdatedAt.ReplaceWithoutMatch | packages/create-effex-app/templates/packages/database/scripts/fix-updated-at.ts:22-25 | where the matcher matches nowhere, the text is unchanged and the count is zero |
| FixUpdatedAt.FixWithoutMatch | packages/create-effex-app/templates/packages/database/scripts/fix-updated-at.ts:20-25 | a text whose columns are all already fixed (no match anywhere) is unchanged, with count zero |

## Left out

- File-system, console and process effects are not modelled as effects:
  - reads are parameters;
  - existence tests are predicates (`pathExists`, the set of known directories);
  - writes and `mkdir` are recorded as `FsOp` values;
  - console messages, colours and banners, and `process.exit` are dropped.
- File contents are `string`s. The template copy reads and writes every file as UTF-8 (copy-templates.ts:69,71), so a binary template that is not valid UTF-8 would be altered; the model does not represent bytes or decoding and cannot show this.
- Error messages that are only printed are not modelled. The failure because of which a command stops is modelled.
- `path.resolve` is a parameter `resolve`. `path.join` is plain concatenation with `/` (`Strings.PathJoin`), without normalisation.
- `Strings.ToLower` lowers ASCII letters only; `toLowerCase` maps all of Unicode. The names lowered here are identifiers and words.
- The replacement strings of `replace` are taken literally. `$` patterns are not interpreted, and keys are not escaped for regular-expression metacharacters.
- TemplateVariables.SkipHuskyEntry: the five `replace` calls of the `skipHusky` cleanup (replace-variables.ts:39-43) are one abstract `cleanup` function. They drop a trailing comma at a line end, strip the `@commitlint/cli`, `@commitlint/config-conventional` and `husky` entries, and drop a comma before `}`. The model proves only where the cleanup is applied and that it is unused without `skipHusky`.
- PrismaGenerator.Fields: a block whose `properties` is absent yields no fields. `model.properties.filter(...)` (prisma-service-generator.ts:55) would throw there. The schema parser always gives a model block its property list, so this case does not arise.
- A lookup in an untyped object literal (`typeMap[t]`) also finds `Object.prototype` members, such as `constructor`. The type maps treat such keys as unknown types.
- The `all` option of `generateDrizzle` is accepted and ignored, as in the source.
- `../generators/effect-service-generator.js` is not part of this model. `GenerateServicesCommand` stops at the request it would hand to `generateEffectServices`: the schema path and output directory.
- The Prisma grammar parser (`getSchema`) is not part of this model. Its output is the `PrismaAst.PrismaSchema` datatype. The exception `getModels` and its siblings raise for a missing list becomes `ASTError` with the engine's message, and a `list` that is present but not an array is not represented.
- Effect's runtime is not modelled: `Effect.gen`, `tryPromise`, `Schema.decodeUnknown` and layers. The generated service files are checked as text, not executed.
- ProjectNames.ValidateProjectName: the message the `trimmed` refinement reports comes from the schema library and is not modelled. Every other refinement's message is.
- The `skipHusky` flag that `create.ts` passes is not modelled, because `copyTemplates` takes only three parameters and never builds that variable.
- The drizzle parser does not skip `//` comment lines: a commented-out column that matches the column pattern is read as a column. The model follows the code here.
- FixUpdatedAt.FixInserts: that a second run of the fix changes nothing (idempotence) is not proved. The facts proved are that every rewritten segment is a column without a following `.$onUpdate`, and that a text without such columns is unchanged.
- DrizzleParser.ParseTables: the parse of the template schema (`templates/packages/database/src/schema.ts`) into the one `user` table is not evaluated on that literal text.
