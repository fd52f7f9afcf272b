/** Pool configurations: the runtime form and how the configuration file is turned into it. */
module NodeConfigs {
  import opened CpuSets

  const RESERVED := "reserved"
  const DEFAULT := "default"
  const IGNORED := "ignored"
  const OFFLINE := "offline"
  const CLAIM_LEFTOVER := -1

  datatype Config = Config(cpuCount: int, cpus: Option<CPUSet>, isolated: bool, disableHT: bool)

  type NodeConfig = map<string, Config>

  predicate Claims(pc: Config) {
    pc.cpuCount == CLAIM_LEFTOVER
  }

  /** What preparing a configuration relies on: a reserved pool that is not merely a wildcard has CPUs
      or a count, and every other pool that claims no leftovers names its CPUs. */
  ghost predicate Ready(cfg: NodeConfig) {
    && (RESERVED in cfg ==> 0 <= cfg[RESERVED].cpuCount || (cfg[RESERVED].cpus.Some? && cfg[RESERVED].cpus.value != {}))
    && forall p :: p in cfg && p != RESERVED && !Claims(cfg[p]) ==> cfg[p].cpus.Some?
  }

  /** The cpuset text of a configuration file entry, by what parsing it gives. */
  datatype CpusText = Empty | Wildcard | Invalid | Explicit(cpus: CPUSet)

  /** An entry of the configuration file; freqsValid says whether both its frequency texts parse. */
  datatype FileEntry = FileEntry(cpuCount: int, cpus: CpusText, isolated: bool, disableHT: bool, freqsValid: bool)

  const WILDCARD_ENTRY := FileEntry(0, Wildcard, false, false, true)

  const UNCONFIGURED := Config(0, None, false, false)

  /** An explicit CPU set agrees with the kernel's isolated CPUs. */
  predicate IsolationAgrees(isolated: bool, cpus: CPUSet, isolatedCpus: CPUSet) {
    if isolated then cpus <= isolatedCpus else cpus !! isolatedCpus
  }

  /** NodeConfig.configure */
  method Configure(cfg: NodeConfig, pool: string, entry: FileEntry, isolatedCpus: CPUSet)
    returns (cfg': NodeConfig, ok: bool)
    ensures ok <==> ConfigurableEntry(entry, isolatedCpus)
    ensures ok ==> cfg' == cfg[pool := Configured(if pool in cfg then cfg[pool] else UNCONFIGURED, entry)]
    ensures ok <==> GoodSettings(entry, isolatedCpus)
    ensures ok ==> pool in cfg' && cfg' == cfg[pool := cfg'[pool]]
    ensures ok ==> EntrySays(if pool in cfg then Some(cfg[pool]) else None, entry, cfg'[pool])
  {
    ConfigurableIff(entry, isolatedCpus);
    var pc := if pool in cfg then cfg[pool] else UNCONFIGURED;
    pc := pc.(isolated := entry.isolated);
    pc := pc.(disableHT := entry.disableHT);
    cfg' := cfg[pool := pc];
    if !entry.freqsValid {
      return cfg', false;
    }
    match entry.cpus {
      case Empty =>
        pc := pc.(cpuCount := entry.cpuCount);
      case Wildcard =>
        pc := pc.(cpuCount := CLAIM_LEFTOVER);
        if pc.disableHT {
          return cfg'[pool := pc], false;
        }
      case Invalid =>
        return cfg', false;
      case Explicit(cset) =>
        if pc.isolated {
          if !(cset <= isolatedCpus) {
            return cfg', false;
          }
        } else {
          if cset * isolatedCpus != {} {
            assert Pick(cset * isolatedCpus) in cset;
            return cfg', false;
          }
          assert forall c :: c in cset ==> c !in cset * isolatedCpus;
        }
        pc := pc.(cpus := Some(cset));
    }
    return cfg'[pool := pc], true;
  }

  /** The entries configure accepts. */
  ghost predicate ConfigurableEntry(entry: FileEntry, isolatedCpus: CPUSet) {
    && entry.freqsValid
    && match entry.cpus
       case Empty => true
       case Wildcard => !entry.disableHT
       case Invalid => false
       case Explicit(cset) => IsolationAgrees(entry.isolated, cset, isolatedCpus)
  }

  /** The configuration an accepted entry stands for, on top of what was configured before. */
  ghost function Configured(pc: Config, entry: FileEntry): Config {
    Config(match entry.cpus case Empty => entry.cpuCount case Wildcard => CLAIM_LEFTOVER case _ => pc.cpuCount,
           if entry.cpus.Explicit? then Some(entry.cpus.cpus) else pc.cpus,
           entry.isolated, entry.disableHT)
  }

  /** The entries parseRequiringExplicitCpus accepts for a pool. */
  ghost predicate AcceptableEntry(pool: string, entry: FileEntry, isolatedCpus: CPUSet) {
    && (entry.cpus.Empty? ==> pool == RESERVED)
    && (pool == RESERVED || pool == DEFAULT ==> !entry.isolated && !entry.disableHT)
    && ConfigurableEntry(entry, isolatedCpus)
  }

  ghost function ReservedBase(numReserved: int): Config {
    Config(numReserved, None, false, false)
  }

  /** The configuration a file stands for, pool by pool. */
  ghost function Parsed(file: map<string, FileEntry>, numReserved: int): NodeConfig {
    map p | p in file.Keys + {RESERVED, DEFAULT} ::
      var base := if p == RESERVED then ReservedBase(numReserved) else UNCONFIGURED;
      if p in file then Configured(base, file[p])
      else if p == RESERVED then base
      else Configured(base, WILDCARD_ENTRY)
  }

  lemma ConfiguredStart(numReserved: int, isolatedCpus: CPUSet)
    ensures ConfigurableEntry(FileEntry(numReserved, Empty, false, false, true), isolatedCpus)
    ensures ConfigurableEntry(WILDCARD_ENTRY, isolatedCpus)
    ensures Configured(UNCONFIGURED, FileEntry(numReserved, Empty, false, false, true)) == ReservedBase(numReserved)
  {
  }

  /** The configuration while the file is being parsed: the entries parsed so far are acceptable and configured. */
  ghost predicate ParsedSoFar(file: map<string, FileEntry>, numReserved: int, isolatedCpus: CPUSet,
                              remaining: set<string>, cfg: NodeConfig)
  {
    && remaining <= file.Keys
    && (forall p :: p in file && p !in remaining ==> AcceptableEntry(p, file[p], isolatedCpus))
    && cfg.Keys == (file.Keys - remaining) + {RESERVED}
    && forall p :: p in cfg ==>
         cfg[p] == if p in remaining || p !in file then ReservedBase(numReserved) else Parsed(file, numReserved)[p]
  }

  lemma ParsedStep(file: map<string, FileEntry>, numReserved: int, isolatedCpus: CPUSet,
                   remaining: set<string>, cfg: NodeConfig, pool: string)
    requires ParsedSoFar(file, numReserved, isolatedCpus, remaining, cfg)
    requires pool in remaining && AcceptableEntry(pool, file[pool], isolatedCpus)
    ensures
      var pc := Configured(if pool in cfg then cfg[pool] else UNCONFIGURED, file[pool]);
      ParsedSoFar(file, numReserved, isolatedCpus, remaining - {pool}, cfg[pool := pc])
  {
    hide Configured, AcceptableEntry;
  }

  lemma ParsedEnd(file: map<string, FileEntry>, numReserved: int, isolatedCpus: CPUSet, cfg: NodeConfig)
    requires ParsedSoFar(file, numReserved, isolatedCpus, {}, cfg)
    ensures DEFAULT in cfg ==> cfg == Parsed(file, numReserved)
    ensures DEFAULT !in cfg ==> cfg[DEFAULT := Configured(UNCONFIGURED, WILDCARD_ENTRY)] == Parsed(file, numReserved)
    ensures forall p :: p in file ==> AcceptableEntry(p, file[p], isolatedCpus)
  {
    hide Configured, AcceptableEntry;
  }

  /** parseRequiringExplicitCpus: accepts exactly the files all of whose entries are acceptable, in any order of
      entries. */
  method ParseRequiringExplicitCpus(file: map<string, FileEntry>, numReserved: int, isolatedCpus: CPUSet)
    returns (cfg: NodeConfig, ok: bool)
    ensures ok <==> forall p :: p in file ==> AcceptableEntry(p, file[p], isolatedCpus)
    ensures ok ==> cfg == Parsed(file, numReserved)
    ensures ok <==> forall p :: p in file ==> GoodEntry(p, file[p], isolatedCpus)
    ensures ok ==> FileSays(file, numReserved, cfg)
  {
    FileAccepted(file, isolatedCpus);
    FileMeans(file, numReserved);
    hide Configured, ConfigurableEntry, Parsed, GoodSettings, EntrySays, FileSays;
    var configured;
    ConfiguredStart(numReserved, isolatedCpus);
    cfg, configured := Configure(map[], RESERVED, FileEntry(numReserved, Empty, false, false, true), isolatedCpus);
    var remaining := file.Keys;
    while remaining != {}
      invariant ParsedSoFar(file, numReserved, isolatedCpus, remaining, cfg)
    {
      var pool :| pool in remaining;
      var entry := file[pool];
      ghost var before := cfg;
      if entry.cpus.Empty? && pool != RESERVED {
        return cfg, false;
      }
      if entry.isolated && (pool == RESERVED || pool == DEFAULT) {
        return cfg, false;
      }
      if entry.disableHT && (pool == RESERVED || pool == DEFAULT) {
        return cfg, false;
      }
      cfg, ok := Configure(cfg, pool, entry, isolatedCpus);
      if !ok {
        return cfg, false;
      }
      ParsedStep(file, numReserved, isolatedCpus, remaining, before, pool);
      remaining := remaining - {pool};
    }
    ParsedEnd(file, numReserved, isolatedCpus, cfg);
    if DEFAULT !in cfg {
      cfg, configured := Configure(cfg, DEFAULT, WILDCARD_ENTRY, isolatedCpus);
    }
    return cfg, true;
  }

  // What entries and files say, field by field

  /** An entry that is accepted: only the reserved pool may leave its CPUs open, it and the default pool are neither
      isolated nor HT-free, a wildcard is not HT-free, and explicit CPUs are as isolated as the entry says. */
  ghost predicate GoodEntry(p: string, entry: FileEntry, isolated: CPUSet) {
    && (entry.cpus.Empty? ==> p == "reserved")
    && (p in {"reserved", "default"} ==> !entry.isolated && !entry.disableHT)
    && GoodSettings(entry, isolated)
  }

  ghost predicate GoodSettings(entry: FileEntry, isolated: CPUSet) {
    && entry.freqsValid && !entry.cpus.Invalid?
    && (entry.cpus.Wildcard? ==> !entry.disableHT)
    && (entry.cpus.Explicit? ==> forall c :: c in entry.cpus.cpus ==> (c in isolated <==> entry.isolated))
  }

  lemma ConfigurableIff(entry: FileEntry, isolated: CPUSet)
    ensures ConfigurableEntry(entry, isolated) <==> GoodSettings(entry, isolated)
  {
    if entry.cpus.Explicit? {
      var cpus := entry.cpus.cpus;
      DisjointIff(cpus, isolated);
      if entry.isolated {
        if forall c :: c in cpus ==> (c in isolated <==> entry.isolated) {
          forall c | c in cpus ensures c in isolated { }
        }
      } else {
        assert (forall c :: c in cpus ==> c !in isolated) <==>
               (forall c :: c in cpus ==> (c in isolated <==> entry.isolated));
      }
    }
  }

  lemma FileAccepted(file: map<string, FileEntry>, isolated: CPUSet)
    ensures (forall p :: p in file ==> AcceptableEntry(p, file[p], isolated)) <==>
            (forall p :: p in file ==> GoodEntry(p, file[p], isolated))
  {
    hide ConfigurableEntry, GoodSettings;
    forall p | p in file ensures AcceptableEntry(p, file[p], isolated) <==> GoodEntry(p, file[p], isolated) {
      ConfigurableIff(file[p], isolated);
    }
  }

  /** An entry configures a pool: the flags as written, explicit CPUs as written, leftovers for the wildcard, and else
      the number of CPUs as written. */
  ghost predicate EntrySays(before: Option<Config>, entry: FileEntry, pc: Config) {
    && pc.isolated == entry.isolated && pc.disableHT == entry.disableHT
    && (entry.cpus.Wildcard? ==> pc.cpuCount == -1)
    && (entry.cpus.Empty? ==> pc.cpuCount == entry.cpuCount)
    && (entry.cpus.Explicit? ==> pc.cpuCount == if before.Some? then before.value.cpuCount else 0)
    && pc.cpus == if entry.cpus.Explicit? then Some(entry.cpus.cpus)
                  else if before.Some? then before.value.cpus
                  else None
  }

  /** What a file configures: each entry its pool; the reserved pool has the given number of CPUs unless its entry says
      otherwise, and the default pool claims leftovers unless it has an entry. */
  ghost predicate FileSays(file: map<string, FileEntry>, numReserved: int, cfg: NodeConfig) {
    && cfg.Keys == file.Keys + {"reserved", "default"}
    && (forall p :: p in file ==>
          EntrySays(if p == "reserved" then Some(Config(numReserved, None, false, false)) else None, file[p], cfg[p]))
    && ("reserved" !in file ==> cfg["reserved"] == Config(numReserved, None, false, false))
    && ("default" !in file ==> cfg["default"] == Config(-1, None, false, false))
  }

  lemma FileMeans(file: map<string, FileEntry>, numReserved: int)
    ensures FileSays(file, numReserved, Parsed(file, numReserved))
  {
  }

  /** The file gives the reserved pool CPUs or a count, and not just the wildcard. */
  ghost predicate ReservedIsConcrete(file: map<string, FileEntry>, numReserved: int) {
    if RESERVED !in file then 0 <= numReserved else
    match file[RESERVED].cpus
    case Empty => 0 <= file[RESERVED].cpuCount
    case Wildcard => false
    case Invalid => true
    case Explicit(cset) => cset != {} || 0 <= numReserved
  }

  /** A successfully parsed file has the required pools, none isolated or HT-free, no leftover claimant HT-free,
      and consistent isolation; it is ready to be prepared exactly if its reserved pool is concrete. */
  lemma ParsedIsReady(file: map<string, FileEntry>, numReserved: int, isolatedCpus: CPUSet)
    requires forall p :: p in file ==> AcceptableEntry(p, file[p], isolatedCpus)
    ensures
      var cfg := Parsed(file, numReserved);
      && RESERVED in cfg && !cfg[RESERVED].isolated && !cfg[RESERVED].disableHT
      && DEFAULT in cfg && !cfg[DEFAULT].isolated && !cfg[DEFAULT].disableHT
      && (forall p :: p in cfg && p != RESERVED ==> Claims(cfg[p]) || cfg[p].cpus.Some?)
      && (forall p :: p in cfg && p != RESERVED && Claims(cfg[p]) ==> !cfg[p].disableHT)
      && (forall p :: p in cfg && cfg[p].cpus.Some? ==>
            IsolationAgrees(cfg[p].isolated, cfg[p].cpus.value, isolatedCpus))
      && (Ready(cfg) <==> ReservedIsConcrete(file, numReserved))
  {
    var cfg := Parsed(file, numReserved);
    forall p | p in cfg && p in file ensures AcceptableEntry(p, file[p], isolatedCpus) {
    }
  }
}
