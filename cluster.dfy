/**
 * The cluster layout a worker or parameter-server process is started with:
 * a map from job name ("ps", "worker") to the list of "host:port" endpoints
 * of that job, all on the loopback host, with ports handed out by a single
 * counter that starts at 12222, parameter servers first.
 */
module Cluster {
  import opened Wrappers
  import opened Decimal

  const BasePort: nat := 12222
  const Host: string := "127.0.0.1"
  const PsJob: string := "ps"
  const WorkerJob: string := "worker"

  type ClusterMap = map<string, seq<string>>

  datatype Address = Address(host: string, port: nat)

  /** The number of values Python's `range(n)` yields. */
  function RangeLength(n: int): (r: nat)
    ensures n >= 0 ==> r == n
    ensures n < 0 ==> r == 0
  {
    if n < 0 then 0 else n
  }

  /** `'{}:{}'.format(host, port)` */
  function FormatEndpoint(a: Address): string {
    a.host + ":" + NatToDecimal(a.port)
  }

  /** The endpoint `cluster_spec` writes for a port. */
  function Endpoint(port: nat): string {
    FormatEndpoint(Address(Host, port))
  }

  /** Index of the first ':' in `s`, if there is one. */
  function ColonIndex(s: string): (r: Option<nat>)
    ensures r.Some? ==> r.value < |s| && s[r.value] == ':' && ':' !in s[..r.value]
    ensures r.None? ==> ':' !in s
  {
    if |s| == 0 then None
    else if s[0] == ':' then Some(0)
    else match ColonIndex(s[1..])
      case None => None
      case Some(i) =>
        assert s[..i + 1] == [s[0]] + s[1..][..i];
        Some(i + 1)
  }

  /** Reference reading of an endpoint: host up to the first ':', then a decimal port. */
  function ParseEndpoint(s: string): (r: Option<Address>)
    ensures r.Some? ==> ':' !in r.value.host
  {
    match ColonIndex(s)
    case None => None
    case Some(i) =>
      match ParseDecimal(s[i + 1..])
      case None => None
      case Some(p) => Some(Address(s[..i], p))
  }

  lemma {:induction false} ColonIndexAfterHost(host: string, rest: string)
    requires ':' !in host
    ensures ColonIndex(host + ":" + rest) == Some(|host|)
    decreases |host|
  {
    if |host| > 0 {
      ColonIndexAfterHost(host[1..], rest);
      assert (host + ":" + rest)[1..] == host[1..] + ":" + rest;
    }
  }

  /** Every formatted endpoint whose host has no ':' reads back as itself. */
  lemma ParseFormatEndpoint(a: Address)
    requires ':' !in a.host
    ensures ParseEndpoint(FormatEndpoint(a)) == Some(a)
  {
    var s := FormatEndpoint(a);
    ColonIndexAfterHost(a.host, NatToDecimal(a.port));
    assert s[..|a.host|] == a.host;
    assert s[|a.host| + 1..] == NatToDecimal(a.port);
    ParseNatToDecimal(a.port);
  }

  lemma ParseEndpointAt(port: nat)
    ensures ParseEndpoint(Endpoint(port)) == Some(Address(Host, port))
  {
    assert forall i :: 0 <= i < |Host| ==> Host[i] != ':';
    ParseFormatEndpoint(Address(Host, port));
  }

  /**
   * What `cluster_spec(num_workers, num_ps)` returns: exactly the two jobs,
   * `len(range(num_ps))` parameter-server endpoints on ports 12222, 12223,
   * ... and then `len(range(num_workers))` worker endpoints on the ports that
   * follow (none for a negative count).
   */
  ghost predicate IsClusterSpec(c: ClusterMap, numWorkers: int, numPs: int) {
    && c.Keys == {PsJob, WorkerJob}
    && |c[PsJob]| == RangeLength(numPs)
    && |c[WorkerJob]| == RangeLength(numWorkers)
    && (forall i :: 0 <= i < |c[PsJob]| ==> c[PsJob][i] == Endpoint(BasePort + i))
    && (forall j :: 0 <= j < |c[WorkerJob]| ==>
          c[WorkerJob][j] == Endpoint(BasePort + RangeLength(numPs) + j))
  }

  /** Every endpoint of a cluster, parameter servers first. */
  function AllEndpoints(c: ClusterMap): (all: seq<string>)
    requires PsJob in c && WorkerJob in c
    ensures |all| == |c[PsJob]| + |c[WorkerJob]|
  {
    c[PsJob] + c[WorkerJob]
  }

  method ClusterSpec(numWorkers: int, numPs: int) returns (cluster: ClusterMap)
    ensures IsClusterSpec(cluster, numWorkers, numPs)
  {
    cluster := map[];
    var port: nat := BasePort;

    var allPs: seq<string> := [];
    var host := Host;
    var i := 0;
    while i < numPs
      invariant 0 <= i <= RangeLength(numPs)
      invariant port == BasePort + i
      invariant |allPs| == i
      invariant forall k :: 0 <= k < i ==> allPs[k] == Endpoint(BasePort + k)
    {
      allPs := allPs + [FormatEndpoint(Address(host, port))];
      port := port + 1;
      i := i + 1;
    }
    cluster := cluster[PsJob := allPs];

    var allWorkers: seq<string> := [];
    var j := 0;
    while j < numWorkers
      invariant 0 <= j <= RangeLength(numWorkers)
      invariant port == BasePort + RangeLength(numPs) + j
      invariant |allWorkers| == j
      invariant forall k :: 0 <= k < j ==>
        allWorkers[k] == Endpoint(BasePort + RangeLength(numPs) + k)
    {
      allWorkers := allWorkers + [FormatEndpoint(Address(host, port))];
      port := port + 1;
      j := j + 1;
    }
    cluster := cluster[WorkerJob := allWorkers];
  }

  /** The layout is determined by the two counts alone. */
  lemma ClusterSpecDeterministic(c1: ClusterMap, c2: ClusterMap, numWorkers: int, numPs: int)
    requires IsClusterSpec(c1, numWorkers, numPs) && IsClusterSpec(c2, numWorkers, numPs)
    ensures c1 == c2
  {
    assert c1[PsJob] == c2[PsJob];
    assert c1[WorkerJob] == c2[WorkerJob];
  }

  /** A run of endpoints on consecutive ports reads back port by port. */
  lemma ConsecutiveEndpointsParse(endpoints: seq<string>, first: nat)
    requires forall i :: 0 <= i < |endpoints| ==> endpoints[i] == Endpoint(first + i)
    ensures forall i :: 0 <= i < |endpoints| ==>
      ParseEndpoint(endpoints[i]) == Some(Address(Host, first + i))
  {
    forall i | 0 <= i < |endpoints|
      ensures ParseEndpoint(endpoints[i]) == Some(Address(Host, first + i))
    {
      ParseEndpointAt(first + i);
    }
  }

  /** The i-th ps endpoint has port 12222 + i, the j-th worker 12222 + len(range(num_ps)) + j. */
  lemma ClusterJobPorts(c: ClusterMap, numWorkers: int, numPs: int)
    requires IsClusterSpec(c, numWorkers, numPs)
    ensures forall i :: 0 <= i < |c[PsJob]| ==>
      ParseEndpoint(c[PsJob][i]) == Some(Address(Host, BasePort + i))
    ensures forall j :: 0 <= j < |c[WorkerJob]| ==>
      ParseEndpoint(c[WorkerJob][j]) == Some(Address(Host, BasePort + RangeLength(numPs) + j))
  {
    ConsecutiveEndpointsParse(c[PsJob], BasePort);
    ConsecutiveEndpointsParse(c[WorkerJob], BasePort + RangeLength(numPs));
  }

  /**
   * Endpoint k of the cluster, counting parameter servers first, is
   * "127.0.0.1:" followed by the decimal port 12222 + k.
   */
  lemma ClusterPortsConsecutive(c: ClusterMap, numWorkers: int, numPs: int)
    requires IsClusterSpec(c, numWorkers, numPs)
    ensures |AllEndpoints(c)| == RangeLength(numPs) + RangeLength(numWorkers)
    ensures forall k :: 0 <= k < |AllEndpoints(c)| ==>
      ParseEndpoint(AllEndpoints(c)[k]) == Some(Address(Host, BasePort + k))
  {
    ClusterJobPorts(c, numWorkers, numPs);
    var ps, workers := c[PsJob], c[WorkerJob];
    var all := AllEndpoints(c);
    forall k | 0 <= k < |all|
      ensures ParseEndpoint(all[k]) == Some(Address(Host, BasePort + k))
    {
      if k < |ps| {
        assert all[k] == ps[k];
      } else {
        var j := k - |ps|;
        assert all[k] == workers[j];
        assert BasePort + RangeLength(numPs) + j == BasePort + k;
      }
    }
  }

  /** Every parameter-server port lies below every worker port. */
  lemma PsPortsBelowWorkerPorts(c: ClusterMap, numWorkers: int, numPs: int, i: nat, j: nat)
    requires IsClusterSpec(c, numWorkers, numPs)
    requires i < |c[PsJob]| && j < |c[WorkerJob]|
    ensures ParseEndpoint(c[PsJob][i]).Some? && ParseEndpoint(c[WorkerJob][j]).Some?
    ensures ParseEndpoint(c[PsJob][i]).value.port < ParseEndpoint(c[WorkerJob][j]).value.port
  {
    ClusterJobPorts(c, numWorkers, numPs);
  }

  /** No two endpoints of the cluster coincide, whichever job they belong to. */
  lemma ClusterEndpointsDistinct(c: ClusterMap, numWorkers: int, numPs: int)
    requires IsClusterSpec(c, numWorkers, numPs)
    ensures forall k, l :: 0 <= k < l < |AllEndpoints(c)| ==> AllEndpoints(c)[k] != AllEndpoints(c)[l]
  {
    ClusterPortsConsecutive(c, numWorkers, numPs);
  }

  lemma BaseEndpointText()
    ensures Endpoint(BasePort) == "127.0.0.1:12222"
  {
    assert NatToDecimal(1) == "1";
    assert NatToDecimal(12) == "12";
    assert NatToDecimal(122) == "122";
    assert NatToDecimal(1222) == "1222";
    assert NatToDecimal(12222) == "12222";
  }

  /** The layout `main` asks for: one parameter server on 12222, workers from 12223. */
  lemma MainClusterLayout(c: ClusterMap, numWorkers: int)
    requires IsClusterSpec(c, numWorkers, 1)
    ensures c[PsJob] == ["127.0.0.1:12222"]
    ensures forall j :: 0 <= j < |c[WorkerJob]| ==>
      ParseEndpoint(c[WorkerJob][j]) == Some(Address(Host, 12223 + j))
  {
    var ps := c[PsJob];
    assert |ps| == 1 && ps[0] == Endpoint(BasePort + 0);
    BaseEndpointText();
    assert ps == [Endpoint(BasePort)];
    forall j | 0 <= j < |c[WorkerJob]|
      ensures ParseEndpoint(c[WorkerJob][j]) == Some(Address(Host, 12223 + j))
    {
      assert c[WorkerJob][j] == Endpoint(12223 + j);
      ParseEndpointAt(12223 + j);
    }
  }
}
