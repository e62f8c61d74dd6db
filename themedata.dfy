/** The records the script reads: one theme of the WordPress.org themes API
    (query_themes, version 1.1) and one GTMetrix test response, plus the
    settings taken from local_settings. JSON objects whose keys the script
    reads unconditionally are records; the keys it tests or may miss are
    Options or maps. */
module ThemeData {
  import opened Wrappers

  datatype Parent = Parent(slug: string)

  /** The `results` object of a completed GTMetrix test. */
  datatype GtResults = GtResults(
    pagespeedScore: int, yslowScore: int, pageElements: int, htmlBytes: int,
    pageBytes: int, reportUrl: string, pageLoadTime: int, fullyLoadedTime: int,
    rumSpeedIndex: int, htmlLoadTime: int, firstPaintTime: int,
    domContentLoadedTime: int, onloadTime: int, backendDuration: int,
    onloadDuration: int, connectDuration: int, firstContentfulPaintTime: int,
    domContentLoadedDuration: int, redirectDuration: int, domInteractiveTime: int)

  /** The `resources` object: URLs of the artefacts of a test. */
  datatype GtResources = GtResources(
    screenshot: string, reportPdf: string, pagespeed: string, reportPdfFull: string,
    pagespeedFiles: string, har: string, yslow: string)

  /** One GTMetrix poll response: its `state`, and `results` and `resources`
      when present (a test that ended in `error` has neither). */
  datatype GtmetrixData = GtmetrixData(
    state: string, results: Option<GtResults>, resources: Option<GtResources>)

  /** One theme as the catalog returns it. */
  datatype CatalogEntry = CatalogEntry(
    name: string, slug: string, author: string, rating: int, numRatings: int,
    downloaded: int, lastUpdated: string, homepage: string,
    sections: map<string, string>, version: string, versions: map<string, string>,
    tags: map<string, string>, template: Option<string>, parent: Option<Parent>,
    screenshotUrl: string, activeInstalls: int)

  /** A theme's dictionary as the script passes it around: the catalog entry,
      and the `gtmetrix` key test_gtmetrix adds once the theme's test has run. */
  datatype Theme = Theme(entry: CatalogEntry, gtmetrix: Option<GtmetrixData>)

  /** The THEMETEST_CONFIG settings the modelled code reads. */
  datatype Config = Config(
    testsiteBasedir: string, testsiteBaseurl: string, imagesPath: string,
    wpPath: string, wpCliPath: string, dbhost: string, dbname: string,
    dbuser: string, dbpass: string, wpAdminPassword: string)
}
