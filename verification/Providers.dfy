/** The name of a provider. */
module Providers {

  datatype Provider = Provider(id: string)
}
