/** The identity that every service scopes its records by. */
module Models {
  datatype Identity = Identity(userId: string, workspaceId: string, tenantId: string, role: string)
}
