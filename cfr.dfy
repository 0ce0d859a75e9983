/**
  The shape of the regulatory data that the eCFR service hands to the
  importer: titles made of parts made of sections.
 */
module Cfr {
  import opened JsValue

  /** One entry of the table of CFR titles the sample generator starts from. */
  datatype TitleInfo = TitleInfo(number: int, name: string, agency: string, shortName: string)

  /** A section: its number ("part.n"), its raw (possibly HTML) content and its last update, in milliseconds. */
  datatype SectionData = SectionData(number: string, content: Option<string>, lastUpdated: Option<int>)

  datatype PartData = PartData(number: int, name: string, sections: seq<SectionData>)

  /** A title as handed to the importer: the table entry's number, name and agency names, with its parts. */
  datatype TitleData = TitleData(number: int, name: string, agency: string, shortName: string, parts: seq<PartData>)
}
