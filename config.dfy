/** The playbook's data model: what the YAML playbook and the command line
    overrides turn into once loaded. Every entity is a value; resolving a task
    or a target builds new values and never alters the playbook. */
module Config {
  import opened Wrappers

  /** One nanosecond-resolution span of time, as Go's `time.Duration`. */
  type Duration = int

  const Second: Duration := 1_000_000_000

  /** The port a host gets when none is given. */
  const DefaultPort: int := 22

  /** A host to run a task on. */
  datatype Destination = Destination(name: string, host: string, port: int, user: string)

  /** An inventory kept in a file or behind a URL, with the groups to take from it. */
  datatype Inventory = Inventory(groups: seq<string>, location: string)

  /** A named set of hosts. `hosts` is `None` when the playbook does not
      mention the key at all and `Some([])` when it gives an empty list. */
  datatype Target = Target(hosts: Option<seq<Destination>>, inventoryFile: Inventory, inventoryURL: Inventory)

  datatype CopySpec = CopySpec(source: string, dest: string, mkdir: bool)
  datatype SyncSpec = SyncSpec(source: string, dest: string, delete: bool)
  datatype DeleteSpec = DeleteSpec(location: string, recursive: bool)
  datatype WaitSpec = WaitSpec(timeout: Duration, checkDuration: Duration, command: string)
  datatype Options = Options(ignoreErrors: bool, noAuto: bool, local: bool)

  /** One command of a task. Several of its kinds may be filled in; the
      runner picks one by a fixed priority. An absent environment is the
      empty map. */
  datatype Cmd = Cmd(
    name: string,
    copy: CopySpec,
    sync: SyncSpec,
    delete: DeleteSpec,
    wait: WaitSpec,
    script: string,
    environment: map<string, string>,
    options: Options)

  /** An ordered list of commands run together on every host. */
  datatype Task = Task(name: string, user: string, sshKey: string, commands: seq<Cmd>, onError: string)

  /** What the command line overrides. A playbook loaded without overrides
      behaves as one whose overrides are all empty. */
  datatype Overrides = Overrides(
    user: string,
    targetHosts: seq<string>,
    inventoryFile: string,
    inventoryURL: string,
    environment: map<string, string>)

  /** The whole playbook together with the overrides it was loaded with. */
  datatype PlayBook = PlayBook(
    user: string,
    sshKey: string,
    targets: map<string, Target>,
    tasks: map<string, Task>,
    overrides: Overrides)

  /** The user for hosts that do not name one: the override user if given,
      else the playbook's. */
  function DefaultUser(p: PlayBook): string
  {
    if p.overrides.user != "" then p.overrides.user else p.user
  }
}
