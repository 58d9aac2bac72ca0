/** Conversion of the loaded memory settings into the memory manager's
    configuration. Only the two settings the conversion reads are
    represented; the rest of the settings structure is not part of this model. */
module ConfigConversion {
  import TwoTierMemory

  datatype MemorySettings = MemorySettings(shortTermMaxEntries: int, longTermStorageDir: string)

  const LongTermFileName: string := "/long_term.json"

  /** The conversion as written: the cleanup interval is the raw duration 5,
      that is five nanoseconds. */
  function ConvertConfigToMemoryConfig(cfg: MemorySettings): (c: TwoTierMemory.MemoryConfig)
    ensures c.shortTermCapacity == cfg.shortTermMaxEntries
    ensures |c.longTermFile| == |cfg.longTermStorageDir| + 15
    ensures c.longTermFile[..|cfg.longTermStorageDir|] == cfg.longTermStorageDir
    ensures c.longTermFile[|cfg.longTermStorageDir|..] == "/long_term.json"
    ensures c.cleanupInterval == 5
  {
    TwoTierMemory.MemoryConfig(cfg.shortTermMaxEntries, cfg.longTermStorageDir + LongTermFileName, 5)
  }

  /** The interval the conversion produces is not the five minutes meant,
      nor the manager's own default, whatever the settings. */
  lemma IntervalIsFiveNanoseconds(cfg: MemorySettings)
    ensures ConvertConfigToMemoryConfig(cfg).cleanupInterval == 5
    ensures ConvertConfigToMemoryConfig(cfg).cleanupInterval < TwoTierMemory.Minute
    ensures ConvertConfigToMemoryConfig(cfg).cleanupInterval != TwoTierMemory.DefaultConfig.cleanupInterval
  {
  }

  /** The conversion with the evidently intended five-minute interval. */
  function ConvertConfigIntended(cfg: MemorySettings): (c: TwoTierMemory.MemoryConfig)
    ensures c.shortTermCapacity == cfg.shortTermMaxEntries
    ensures |c.longTermFile| == |cfg.longTermStorageDir| + 15
    ensures c.longTermFile[..|cfg.longTermStorageDir|] == cfg.longTermStorageDir
    ensures c.longTermFile[|cfg.longTermStorageDir|..] == "/long_term.json"
    ensures c.cleanupInterval == 5 * TwoTierMemory.Minute == TwoTierMemory.DefaultConfig.cleanupInterval
  {
    TwoTierMemory.MemoryConfig(cfg.shortTermMaxEntries, cfg.longTermStorageDir + LongTermFileName, 5 * TwoTierMemory.Minute)
  }

  /** Settings with the manager's default capacity and directory give
      exactly the manager's default configuration once the interval is fixed. */
  lemma IntendedMatchesDefault()
    ensures ConvertConfigIntended(MemorySettings(1000, "memory")) == TwoTierMemory.DefaultConfig
  {
    assert "memory" + LongTermFileName == "memory/long_term.json";
  }
}
