/** The component type that stands for "no type" throughout discovery (internal/common/discovery/discovery.go). */
module Sentinel {
  const NO_TYPE_TEXT := "SENTINEL_FOR_DISCOVERY_RECEIVER___"
}
