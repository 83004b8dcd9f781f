/** The executable a package manager runs package binaries with. */
module PackageManagers {

  /** `getPackageManagerExecutable`: `bun` and `pnpm` run binaries
      themselves; `npm`, and any other value, goes through `npx`. */
  function Executable(packageManager: string): (r: string)
    ensures r == "npx" || r == "bun" || r == "pnpm"
    ensures r != "npx" ==> r == packageManager
    ensures r == "npx" <==> packageManager != "bun" && packageManager != "pnpm"
  {
    match packageManager
    case "npm" => "npx"
    case "bun" => "bun"
    case "pnpm" => "pnpm"
    case _ => "npx"
  }
}
