/** `get_endpoint`: the base URL of the translation service. */
module Endpoint {

  /** The base used when testing against a service on this machine. */
  const LocalBase: string := "http://localhost:7860"

  /** The hosted service. */
  const RemoteBase: string := "https://gaganyatri-translate-indic-server-cpu.hf.space"

  /**
    `get_endpoint(use_gpu, use_localhost, service_type)`. Only `use_localhost` decides:
    the GPU flag and the service tag are logged and otherwise ignored.
  */
  function GetEndpoint(useGpu: bool, useLocalhost: bool, serviceType: string): (baseUrl: string)
    ensures baseUrl == LocalBase <==> useLocalhost
    ensures baseUrl == RemoteBase <==> !useLocalhost
  {
    if useLocalhost then LocalBase else RemoteBase
  }

  /** The result depends on `use_localhost` alone. */
  lemma EndpointIgnoresGpuAndService(useGpu: bool, useGpu': bool, useLocalhost: bool,
                                     serviceType: string, serviceType': string)
    ensures GetEndpoint(useGpu, useLocalhost, serviceType) == GetEndpoint(useGpu', useLocalhost, serviceType')
  {
  }
}
