/** The part of Agama's network state that it adds on top of nmstate: setting
    the default gateway. Interfaces and DNS settings are carried as opaque
    records; only the list of configured routes is ever rewritten. */
module Network {
  import opened Wrappers

  datatype RouteState = Absent

  /** An nmstate route entry, reduced to the fields the gateway code sets. */
  datatype RouteEntry = RouteEntry(
    destination: Option<string>,
    nextHopIface: Option<string>,
    nextHopAddr: Option<string>,
    state: Option<RouteState>)

  /** `RouteEntry::new()`: every field unset. */
  const EmptyRoute := RouteEntry(None, None, None, None)

  /** The destination of a default route. */
  const DefaultDestination := "0.0.0.0/0"

  datatype Interface = Interface(name: string)
  datatype DnsState = DnsState(servers: seq<string>, searches: seq<string>)

  datatype NetworkStateError = UnknownInterface(name: string) | MissingIpv4Settings | InvalidIpAddr(address: string)

  /** The two routes a default gateway through `address` on `deviceName`
      consists of: first a removal of any default route on the device, then
      the default route itself. */
  function DefaultGatewayRoutes(address: string, deviceName: string): (routes: seq<RouteEntry>)
    ensures |routes| == 2
    ensures routes[0].destination == Some(DefaultDestination) && routes[0].nextHopIface == Some(deviceName)
    ensures routes[0].nextHopAddr == None && routes[0].state == Some(Absent)
    ensures routes[1].destination == Some(DefaultDestination) && routes[1].nextHopIface == Some(deviceName)
    ensures routes[1].nextHopAddr == Some(address) && routes[1].state == None
  {
    var gateway := EmptyRoute.(destination := Some(DefaultDestination), nextHopIface := Some(deviceName));
    [gateway.(state := Some(Absent)), gateway.(nextHopAddr := Some(address))]
  }

  /** The removal entry is the gateway entry without its address and marked
      absent: the two differ in nothing else. */
  lemma GatewayEntriesDiffer(address: string, deviceName: string)
    ensures
      var routes := DefaultGatewayRoutes(address, deviceName);
      routes[0] == routes[1].(nextHopAddr := None, state := Some(Absent))
  {
  }

  /** `NetworkState`: interfaces, DNS settings and nmstate's routes, of which
      `routesConfig` is the list of configured routes (absent until set). */
  class NetworkState {
    var interfaces: seq<Interface>
    var dns: DnsState
    var routesRunning: Option<seq<RouteEntry>>
    var routesConfig: Option<seq<RouteEntry>>

    constructor (interfaces: seq<Interface>, dns: DnsState, routesRunning: Option<seq<RouteEntry>>, routesConfig: Option<seq<RouteEntry>>)
      ensures this.interfaces == interfaces && this.dns == dns
      ensures this.routesRunning == routesRunning && this.routesConfig == routesConfig
    {
      this.interfaces := interfaces;
      this.dns := dns;
      this.routesRunning := routesRunning;
      this.routesConfig := routesConfig;
    }

    /** `set_default_gateway`: the configured routes become exactly the two
        default-gateway entries, whatever they were; it always succeeds. */
    method SetDefaultGateway(address: string, deviceName: string) returns (r: Result<(), NetworkStateError>)
      modifies this`routesConfig
      ensures r == Ok(())
      ensures routesConfig == Some(DefaultGatewayRoutes(address, deviceName))
      ensures interfaces == old(interfaces) && dns == old(dns) && routesRunning == old(routesRunning)
    {
      // get_or_insert: the list exists from here on
      if routesConfig.None? {
        routesConfig := Some([]);
      }
      var routes := routesConfig.value;
      routes := [];
      var gateway := EmptyRoute;
      gateway := gateway.(destination := Some(DefaultDestination));
      gateway := gateway.(nextHopIface := Some(deviceName));
      var deleteGateway := gateway;
      gateway := gateway.(nextHopAddr := Some(address));
      deleteGateway := deleteGateway.(state := Some(Absent));
      routes := routes + [deleteGateway];
      routes := routes + [gateway];
      assert routes == [deleteGateway, gateway];
      routesConfig := Some(routes);
      r := Ok(());
    }
  }
}
