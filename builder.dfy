/** The server builder (src/builder.rs): a shared, mutable configuration
    that `bind` and `name` fill in, and `run`, which turns it into a server
    or refuses when no address was given. */
module Builder {
  import opened Wrappers
  import opened Errors
  import opened Server

  /** The name a server gets when none was configured. */
  const DefaultName: string := "Server"

  /** `MudServerConfig`: what has been configured so far. */
  class MudServerConfig {
    var name: Option<string>
    var host: Option<string>

    constructor ()
      ensures name.None? && host.None?
    {
      name := None;
      host := None;
    }
  }

  /** `MudServerBuilder`: a handle on a configuration. The source keeps the
      configuration behind a shared pointer and every setter returns a
      clone of the handle, so all the handles of one chain share one
      configuration object. */
  class MudServerBuilder {
    const config: MudServerConfig

    /** `MudServerBuilder::new` (and `default`): a fresh configuration with
        neither a name nor an address. */
    constructor ()
      ensures fresh(config)
      ensures config.name.None? && config.host.None?
    {
      config := new MudServerConfig();
    }

    /** The derived `clone`: a new handle on the same configuration. */
    constructor Sharing(config: MudServerConfig)
      ensures this.config == config
    {
      this.config := config;
    }

    /** `bind`: records the address, keeps the name, and returns a clone of
        this handle, which shares the configuration. */
    method Bind(addr: string) returns (b: MudServerBuilder)
      modifies config
      ensures config.host == Some(addr) && config.name == old(config.name)
      ensures fresh(b) && b.config == config
    {
      config.host := Some(addr);
      b := new MudServerBuilder.Sharing(config);
    }

    /** `name`: records the name, keeps the address, and returns a clone of
        this handle, which shares the configuration. */
    method Name(name: string) returns (b: MudServerBuilder)
      modifies config
      ensures config.name == Some(name) && config.host == old(config.host)
      ensures fresh(b) && b.config == config
    {
      config.name := Some(name);
      b := new MudServerBuilder.Sharing(config);
    }

    /** `run`: without an address, `NoAddress`; otherwise a new server on
        that address, named as configured or `DefaultName`, with empty
        tables and registry. The configuration is left as it is. */
    method Run() returns (r: Result<MudServer, MudError>)
      ensures config.host.None? ==> r == Err(NoAddress)
      ensures config.host.Some? ==>
        r.Ok? && fresh(r.value)
        && r.value.host == config.host.value
        && r.value.name == (if config.name.Some? then config.name.value else DefaultName)
        && r.value.clients == [] && r.value.verbs == [] && r.value.hooks == []
        && r.value.connections.None?
    {
      if config.host.None? {
        return Err(NoAddress);
      }
      var addr := config.host.value;
      var name := if config.name.Some? then config.name.value else DefaultName;
      var server := new MudServer(name, addr);
      return Ok(server);
    }
  }

  /** A chained configuration reaches the original handle: binding and
      naming through the clones and then running the first handle gives a
      server with that address and name. */
  method ChainedSetup(addr: string, name: string) returns (r: Result<MudServer, MudError>)
    ensures r.Ok? && r.value.host == addr && r.value.name == name
  {
    var builder := new MudServerBuilder();
    var bound := builder.Bind(addr);
    var named := bound.Name(name);
    r := builder.Run();
  }

  /** Running without `bind` fails with `NoAddress`, whatever the name. */
  method RunWithoutAddress(name: string) returns (r: Result<MudServer, MudError>)
    ensures r == Err(NoAddress)
  {
    var builder := new MudServerBuilder();
    var named := builder.Name(name);
    r := named.Run();
  }

  /** Without `name`, the server is called `DefaultName`. */
  method RunWithoutName(addr: string) returns (r: Result<MudServer, MudError>)
    ensures r.Ok? && r.value.name == DefaultName && r.value.host == addr
  {
    var builder := new MudServerBuilder();
    var bound := builder.Bind(addr);
    r := bound.Run();
  }
}
