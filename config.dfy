/** The application configuration record and its defaults. */
module Config {
  datatype AppConfig = AppConfig(
    DockerFilename: string,
    DockerImageName: string,
    DockerExposedPort: int,
    RequestedLiveContainers: int,
    StartingHTTPServerNattedPort: int,
    ContainerRunningStateString: string,
    LogFilename: string,
    StatsFilename: string,
    StatsPersist: bool,
    StatsDisplay: bool,
    /** Stats are shown for every snapshot whose index is a multiple of this. */
    ThrottleStatsInputRequests: int)

  /** `GetConfig`: the defaults. The default throttle is non-zero, so the
      stats consumer never divides by zero under it. */
  function GetConfig(): (cfg: AppConfig)
    ensures cfg.ThrottleStatsInputRequests > 0 && cfg.StartingHTTPServerNattedPort > 0
    ensures cfg.StatsDisplay && cfg.StatsPersist
  {
    AppConfig(
      "Dockerfile", "mariohellowebserver:latest", 8770, 2, 8770, "running",
      "containers.log", "containers_stats.log", true, true, 20)
  }
}
