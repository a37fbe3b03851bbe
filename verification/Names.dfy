/** The slug grammars for tenant, org and site names. */
module Names {
  import opened Text

  predicate SlugChar(c: char) { IsAlnum(c) || c == '-' }

  /** [a-z][a-z0-9-]{1,30} (core/tenant.go:72-86). */
  predicate ValidTenantSlug(s: string) {
    2 <= |s| <= 31 && IsLower(s[0]) && All(s[1..], SlugChar)
  }

  /** [a-z]{2,8}[0-9]{2}, not ending in "00" (core/store.go:2259-2281). */
  predicate ValidSiteSlug(s: string) {
    && 4 <= |s| <= 10
    && All(s[|s| - 2..], IsDigit)
    && s[|s| - 2..] != "00"
    && All(s[..|s| - 2], IsLower)
  }

  /** Random ids are a two-letter prefix, `_` and base32 characters
      (core/tenant.go:26-30). */
  predicate IdChar(c: char) { 'A' <= c <= 'Z' || IsLower(c) || IsDigit(c) || c == '_' }

  predicate ValidId(s: string) { s != "" && All(s, IdChar) }
}
