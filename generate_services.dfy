/** `generateServices`: the command that locates a Prisma schema and hands
    its path and an output directory to the Prisma service generator. */
module GenerateServicesCommand {
  import opened Wrappers
  import opened Strings
  import opened SchemaSearch

  /** The decoded command-line options. */
  datatype Options = Options(schemaPath: Option<string>, outputDir: Option<string>)

  /** The arguments `generateEffectServices` is called with. */
  datatype Request = Request(schemaPath: string, outputDir: string)

  const PrismaCandidates: seq<string> :=
    ["./prisma/schema.prisma", "./packages/database/prisma/schema.prisma", "../prisma/schema.prisma"]

  /** `getDefaultOutputDir`: both of its branches give the same directory. */
  function DefaultOutputDir(schemaPath: string, resolve: string -> string): (r: string)
    ensures r == resolve("./src/generated/effect")
  {
    if Contains(schemaPath, "packages/database") then resolve("./src/generated/effect")
    else resolve("./src/generated/effect")
  }

  /** The whole command up to the generator call. */
  function GenerateServicesRequest(options: Options, resolve: string -> string, pathExists: string -> bool)
    : Result<Request, SchemaError>
  {
    match LocateSchema(options.schemaPath, PrismaCandidates, resolve, pathExists)
    case Failure(e) => Failure(e)
    case Success(schemaPath) =>
      var outputDir := if options.outputDir.Some? then resolve(options.outputDir.value)
                       else DefaultOutputDir(schemaPath, resolve);
      Success(Request(schemaPath, outputDir))
  }

  /** `findPrismaSchema`. */
  method FindPrismaSchema(resolve: string -> string, pathExists: string -> bool) returns (r: Option<string>)
    ensures r == FirstExisting(PrismaCandidates, resolve, pathExists)
  {
    r := FindSchema(PrismaCandidates, resolve, pathExists);
  }

  /** `generateServices`, up to the call of the generator. */
  method GenerateServices(options: Options, resolve: string -> string, pathExists: string -> bool)
    returns (r: Result<Request, SchemaError>)
    ensures r == GenerateServicesRequest(options, resolve, pathExists)
  {
    var located := LocateSchemaPath(options.schemaPath, PrismaCandidates, resolve, pathExists);
    if located.Failure? {
      return Failure(located.error);
    }
    var schemaPath := located.value;
    var outputDir := if options.outputDir.Some? then resolve(options.outputDir.value) else DefaultOutputDir(schemaPath, resolve);
    return Success(Request(schemaPath, outputDir));
  }

  /** A request names an existing schema file and the resolved output
      option, or `./src/generated/effect` wherever the schema lies; the
      command fails exactly when the location step does. */
  lemma RequestSpec(options: Options, resolve: string -> string, pathExists: string -> bool)
    ensures var r := GenerateServicesRequest(options, resolve, pathExists);
      var located := LocateSchema(options.schemaPath, PrismaCandidates, resolve, pathExists);
      (r.Failure? <==> located.Failure?) &&
      (r.Failure? ==> r.error == located.error) &&
      (r.Success? ==>
        r.value.schemaPath == located.value && pathExists(r.value.schemaPath) &&
        r.value.outputDir == (if options.outputDir.Some? then resolve(options.outputDir.value)
                              else resolve("./src/generated/effect")))
  {
    LocateSchemaSpec(options.schemaPath, PrismaCandidates, resolve, pathExists);
  }
}
