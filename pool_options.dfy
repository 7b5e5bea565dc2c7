/**
 * Configuration of the keyed model pool and the time unit used throughout:
 * instants and durations are counted in DateTime ticks (100 ns).
 */
module PoolOptions {

  const TicksPerMinute: int := 600_000_000

  /** The three pool settings; read once when the pool is constructed. */
  datatype GenerativeModelPoolOptions = GenerativeModelPoolOptions(
    MaxPoolSize: int,
    MinPoolSize: int,
    ModelIdleTimeout: int)

  /** The defaults: at most 20 handles per key, keep at least 1, idle timeout 30 minutes. */
  const Defaults: GenerativeModelPoolOptions :=
    GenerativeModelPoolOptions(20, 1, 30 * TicksPerMinute)

  /** Period of the cleanup timer: 5 minutes. */
  const CleanupInterval: int := 5 * TicksPerMinute
}
