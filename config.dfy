/** The extraction settings (`src/models/config.rs`). */
module ConfigModel {
  /**
   * `context_lines` is a Rust `u32`; `target_column` names the column to scan
   * (empty for automatic choice); the four flags switch the categories on.
   */
  datatype Config = Config(
    contextLines: nat,
    targetColumn: string,
    enablePhone: bool,
    enableIdCard: bool,
    enableBankCard: bool,
    enableName: bool,
    apiHost: string)

  /** The column holding chat messages: "消息内容" ("message content"). */
  const MessageColumn: string := "消息内容"

  /** `has_any_extraction_enabled`: false exactly when all four categories are off. */
  predicate HasAnyExtractionEnabled(c: Config) {
    c.enablePhone || c.enableIdCard || c.enableBankCard || c.enableName
  }

  /** `Config::default`: two context lines, the message column, the three number categories on, names off. */
  function DefaultConfig(): (c: Config)
    ensures c.contextLines == 2 && c.targetColumn == MessageColumn
    ensures c.enablePhone && c.enableIdCard && c.enableBankCard && !c.enableName
    ensures c.apiHost == "localhost:8080"
    ensures HasAnyExtractionEnabled(c)
  {
    Config(2, MessageColumn, true, true, true, false, "localhost:8080")
  }

  /** Switching every category off is the only way to have none enabled. */
  lemma NoExtractionIff(c: Config)
    ensures !HasAnyExtractionEnabled(c) <==>
      !c.enablePhone && !c.enableIdCard && !c.enableBankCard && !c.enableName
  {
  }
}
