/**
 * The input of the translation: one service of a docker-compose project as
 * the compose parser hands it over. `Command.Slice()` and
 * `Environment.Slice()` are taken as the sequences they return.
 */
module Compose {
  import opened GoStrconv

  datatype ServiceConfig = ServiceConfig(
    image: string,
    command: seq<string>,
    cpuShares: Int64,        // 0 means unset
    memLimit: Int64,         // 0 means unset
    environment: seq<string>, // "KEY=VALUE" entries, in order
    ports: seq<string>,       // "[host:]container" entries, in order
    restart: string)
}
