/** The fixed paths every command derives from the home directory. */
module Layout {

  import opened FileSys

  function Root(home: Path): Path { home + [".openclaw"] }
  function Workspace(home: Path): Path { Root(home) + ["workspace"] }
  function BackupsRoot(home: Path): Path { Root(home) + ["backups", "deterministic"] }

  function Operating(home: Path): Path { Workspace(home) + ["OPERATING_RULES.md"] }
  function DetSoul(home: Path): Path { Workspace(home) + ["SOUL.deterministic.md"] }
  function Soul(home: Path): Path { Workspace(home) + ["SOUL.md"] }
  function Compactor(home: Path): Path { Workspace(home) + ["skills", "memory-compactor", "SKILL.md"] }
  function Config(home: Path): Path { Root(home) + [".deterministic.json"] }

  /** Keys of the package's templates directory that `install` and `audit` read. */
  const OperatingTemplate: Path := ["OPERATING_RULES.md"]
  const DetSoulTemplate: Path := ["SOUL.deterministic.md"]
  const CompactorTemplate: Path := ["memory-compactor.SKILL.md"]
  const ConfigTemplate: Path := ["config", ".deterministic.json"]

  /** One managed workspace file: where it is installed and the template it
      comes from. */
  datatype Managed = Managed(installed: Path, template: Path)

  /** The three files `install` stamps and `audit` compares, in their order. */
  function ManagedFiles(home: Path): seq<Managed> {
    [ Managed(Operating(home), OperatingTemplate),
      Managed(DetSoul(home), DetSoulTemplate),
      Managed(Compactor(home), CompactorTemplate) ]
  }
}
