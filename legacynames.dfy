/** lib/legacy-module-name-map.js and `filterModuleName` of lib/upgrader.js: the
    table from 2.x core module names to their 3.x names, and the lookup that keeps a
    name the table does not know. */
module LegacyNames {
  import opened Wrappers
  import opened Text

  /** `legacyModuleNameMap[name]`: the 3.x name of a 2.x core module. Every legacy
      name begins with `a` (for `apostrophe-`) and every new name is scoped. */
  function LegacyModuleName(name: string): (r: Option<string>)
    ensures r.Some? ==> |name| > 0 && name[0] == 'a' && |r.value| > 0 && r.value[0] == '@'
  {
    match name
    case "apostrophe-multisite" => Some("@apostrophecms-pro/multisite")
    case "apostrophe-utils" => Some("@apostrophecms/util")
    case "apostrophe-tasks" => Some("@apostrophecms/task")
    case "apostrophe-launder" => Some("@apostrophecms/launder")
    case "apostrophe-i18n" => Some("@apostrophecms/i18n")
    case "apostrophe-db" => Some("@apostrophecms/db")
    case "apostrophe-locks" => Some("@apostrophecms/lock")
    case "apostrophe-caches" => Some("@apostrophecms/cache")
    case "apostrophe-migrations" => Some("@apostrophecms/migration")
    case "apostrophe-express" => Some("@apostrophecms/express")
    case "apostrophe-urls" => Some("@apostrophecms/url")
    case "apostrophe-templates" => Some("@apostrophecms/template")
    case "apostrophe-email" => Some("@apostrophecms/email")
    case "apostrophe-push" => Some("@apostrophecms/push")
    case "apostrophe-permissions" => Some("@apostrophecms/permission")
    case "apostrophe-assets" => Some("@apostrophecms/asset")
    case "apostrophe-admin-bar" => Some("@apostrophecms/admin-bar")
    case "apostrophe-login" => Some("@apostrophecms/login")
    case "apostrophe-notifications" => Some("@apostrophecms/notification")
    case "apostrophe-schemas" => Some("@apostrophecms/schema")
    case "apostrophe-docs" => Some("@apostrophecms/doc")
    case "apostrophe-jobs" => Some("@apostrophecms/job")
    case "apostrophe-attachments" => Some("@apostrophecms/attachment")
    case "apostrophe-oembed" => Some("@apostrophecms/oembed")
    case "apostrophe-pager" => Some("@apostrophecms/pager")
    case "apostrophe-global" => Some("@apostrophecms/global")
    case "apostrophe-polymorphic-manager" => Some("@apostrophecms/polymorphic-type")
    case "apostrophe-pages" => Some("@apostrophecms/page")
    case "apostrophe-search" => Some("@apostrophecms/search")
    case "apostrophe-any-page-manager" => Some("@apostrophecms/any-page-type")
    case "apostrophe-areas" => Some("@apostrophecms/area")
    case "apostrophe-rich-text-widgets" => Some("@apostrophecms/rich-text-widget")
    case "apostrophe-html-widgets" => Some("@apostrophecms/html-widget")
    case "apostrophe-video-widgets" => Some("@apostrophecms/video-widget")
    case "apostrophe-users" => Some("@apostrophecms/user")
    case "apostrophe-images" => Some("@apostrophecms/image")
    case "apostrophe-images-widgets" => Some("@apostrophecms/image-widget")
    case "apostrophe-files" => Some("@apostrophecms/file")
    case "apostrophe-module" => Some("@apostrophecms/module")
    case "apostrophe-widgets" => Some("@apostrophecms/widget-type")
    case "apostrophe-custom-pages" => Some("@apostrophecms/page-type")
    case "apostrophe-pieces" => Some("@apostrophecms/piece-type")
    case "apostrophe-pieces-pages" => Some("@apostrophecms/piece-page-type")
    case "apostrophe-doc-type-manager" => Some("@apostrophecms/doc-type")
    case _ => None
  }

  /** `legacyModuleNameMap[name] || name`: the table's entry, or the name itself. */
  function FilterModuleName(name: string): (r: string)
    ensures LegacyModuleName(name).Some? ==> r == LegacyModuleName(name).value && r[0] == '@'
    ensures LegacyModuleName(name).None? ==> r == name
  {
    match LegacyModuleName(name)
    case Some(v) => if v != "" then v else name
    case None => name
  }

  /** A name that has been mapped is not mapped again: renaming twice is renaming
      once. */
  lemma FilterIdempotent(name: string)
    ensures FilterModuleName(FilterModuleName(name)) == FilterModuleName(name)
  {
  }

  /** Scoped names, such as those of 3.x modules, pass through. */
  lemma ScopedNamesPassThrough(name: string)
    requires |name| >= 1 && name[0] == '@'
    ensures FilterModuleName(name) == name
  {
  }

  lemma PiecesExample()
    ensures FilterModuleName("apostrophe-pieces") == "@apostrophecms/piece-type"
  {
  }
}
