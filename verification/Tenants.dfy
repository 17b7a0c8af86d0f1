/** The tenant filter of the read ports. */
module Tenants {
  import opened Options

  /** No filter, rows without a tenant, or one tenant's rows. */
  datatype TenantFilter = AnyTenant | NullTenant | OneTenant(id: string)

  predicate Allows(filter: TenantFilter, tenantId: Option<string>) {
    match filter
    case AnyTenant => true
    case NullTenant => tenantId.None?
    case OneTenant(id) => tenantId == Some(id)
  }
}
