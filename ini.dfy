/** The interface of the `ini_parse` library: it reads an ini file and hands every
    `name = value` pair to a handler together with the section it is in. The text layer
    (brackets, `=`, whitespace trimming, comments) belongs to that library; here an ini file
    is the sequence of triples it delivers, in file order. */
module Ini {

  datatype IniLine = IniLine(section: string, name: string, value: string)
}
