/** The configured game servers, looked up by name. */
module Registry {
  import opened Wrappers

  /** Connection parameters of one server: the `ip`, `port` and `password` entries. */
  datatype ServerDescriptor = ServerDescriptor(ip: string, port: int, password: string)

  /** Exact, case-sensitive lookup of a server by name; an unknown name is `None`. */
  function GetServerDetails(serverName: string, servers: map<string, ServerDescriptor>)
    : (details: Option<ServerDescriptor>)
    ensures details.Some? <==> serverName in servers
    ensures details.Some? ==> details.value == servers[serverName]
  {
    if serverName in servers then Some(servers[serverName]) else None
  }

  /** Names differing only in letter case are different servers. */
  lemma LookupIsCaseSensitive(d: ServerDescriptor)
    ensures GetServerDetails("alpha", map["Alpha" := d]) == None
    ensures GetServerDetails("Alpha", map["Alpha" := d]) == Some(d)
  {
  }
}
