// shared/hypertrace_common/hypertrace_common/schemas.py: the vocabulary every service agrees on.
module Schemas {
  datatype Classification =
    | LegitimateTrafficGrowth
    | LikelyBugFromDeployment
    | MisconfigurationOrWaste
    | SuspectedAbuse
    | Unclassified
}
