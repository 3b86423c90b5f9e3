/** The service's default configuration (values read from the environment with these defaults). */
module Config {
  /** Target chunk size, in tokens. */
  const ChunkSize: nat := 500
  /** Tokens shared by consecutive chunks of one page. */
  const ChunkOverlap: nat := 100
  /** Number of nearest chunks a query retrieves. */
  const TopK: nat := 5
  /** Minimum similarity score a retrieved chunk needs to reach the answer generator. */
  const SimilarityThreshold: real := 0.5
}
