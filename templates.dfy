/** The fixed text the generator writes, with the names it splices in. */
module Templates {
  import opened Wrappers
  import opened Nodes
  import opened TypeResolver
  import opened Staging

  /** The preamble of the generated file, written to the root section. */
  const FileHeader: string :=
    "use yaserde::{{YaSerialize, YaDeserialize}};\n" +
    "            use std::io::{Read, Write};\n" +
    "            use soap_client::soap::Header;\n" +
    "            use soap_client::envelop;\n" +
    "            \n" +
    "            "

  const DeriveLine := "#[derive(Debug, Default, YaSerialize, YaDeserialize)]\n"
  const CloseLine := "}\n\n"
  const FlattenLine := "\t#[yaserde(flatten)]\n"
  const Unimplemented := "\tunimplemented!();\n"
  const CloseFn := "}\n"

  /** A top-level element bound to a type becomes a type alias. */
  function AliasLine(name: string, typeName: string, cs: Casing): string
  {
    "pub type " + cs.pascal(name) + " = " + FetchType(typeName, cs) + ";\n\n"
  }

  /** The serializer attribute of a field, with the namespace prefix when the schema has a target namespace. */
  function RenameLine(name: string, tns: Option<string>): string
  {
    if tns.Some? then "\t#[yaserde(prefix = \"ns\", rename = \"" + name + "\", default)]\n"
    else "\t#[yaserde(rename = \"" + name + "\", default)]\n"
  }

  /** The Rust type of a field: `Vec` when repeated, else `Option` when nillable. */
  function FieldType(typeName: string, asVec: bool, asOption: bool, cs: Casing): string
  {
    if asVec || asOption then (if asVec then "Vec" else "Option") + "<" + FetchType(typeName, cs) + ">"
    else FetchType(typeName, cs)
  }

  function FieldLine(name: string, typeName: string, asVec: bool, asOption: bool, cs: Casing): string
  {
    "\tpub " + ShieldReservedNames(cs.snake(name)) + ": " + FieldType(typeName, asVec, asOption, cs) + ",\n"
  }

  /** The serializer attribute and opening line of a generated struct. */
  function StructHeader(name: string, tns: Option<string>, cs: Casing): string
  {
    if tns.Some? then
      "#[yaserde(prefix = \"ns\", namespace = \"ns: " + tns.value + "\", rename = \"" + name +
      "\", default)]\npub struct " + cs.pascal(name) + " {\n"
    else "#[yaserde(rename = \"" + name + "\", default)]\npub struct " + cs.pascal(name) + " {\n"
  }

  /** The flattened field standing for the base type of an extension. */
  function ExtensionField(base: string, cs: Casing): string
  {
    "\tpub " + cs.snake(FetchType(base, cs)) + ": " + FetchType(base, cs) + ",\n"
  }

  /** The one field of a message struct, typed by the part's element in the types module. */
  function PartField(name: string, element: string, cs: Casing): string
  {
    "\tpub " + ShieldReservedNames(cs.snake(name)) + ": " + TypesMod + "::" + FetchType(element, cs) + ",\n"
  }

  function TraitOpen(name: string, cs: Casing): string
  {
    "pub trait " + cs.pascal(name) + " {\n"
  }

  /** A type alias exposing a message to the interface module. */
  function MessageAlias(name: string, message: string, cs: Casing): string
  {
    "pub type " + cs.pascal(name) + " = " + MessagesMod + "::" + FetchType(message, cs) + ";\n"
  }

  function FnSignature(funcName: string, input: string, output: string): string
  {
    "\tfn " + funcName + " (&self, " + input + ") " + output + ";\n"
  }

  function ImplOpen(structName: string, traitName: string): string
  {
    "pub struct " + structName + " {}\n\nimpl " + PortsMod + "::" + traitName + " for " + structName + " {\n"
  }

  function DefaultConstructor(structName: string): string
  {
    "impl Default for " + structName + " {\n\tfn default() -> Self {\n\t\t" + structName + "{}\n\t}\n\t}\n"
  }

  function FnOpen(funcName: string, input: string, output: string): string
  {
    "\tfn " + funcName + " (&self, " + input + ") " + output + " {\n"
  }

  /** `construct_soap_wrapper`: the SOAP envelope struct around a body type. */
  function SoapEnvelope(soapName: string, bodyType: string): string
  {
    "#[derive(Debug, Default, YaSerialize, YaDeserialize)]\n" +
    "        #[yaserde(\n" +
    "            root = \"Envelope\",\n" +
    "            namespace = \"soapenv: http://schemas.xmlsoap.org/soap/envelope/\",\n" +
    "            prefix = \"soapenv\"\n" +
    "        )]\n" +
    "        pub struct " + soapName + "SoapEnvelope {\n" +
    "            #[yaserde(rename = \"encodingStyle\", prefix = \"soapenv\", attribute)]\n" +
    "            pub encoding_style: String,\n" +
    "            #[yaserde(rename = \"tns\", prefix = \"xmlns\", attribute)]\n" +
    "            pub tnsattr: String,\n" +
    "            #[yaserde(rename = \"urn\", prefix = \"xmlns\", attribute)]\n" +
    "            pub urnattr: Option<String>,\n" +
    "            #[yaserde(rename = \"xsi\", prefix = \"xmlns\", attribute)]\n" +
    "            pub xsiattr: String,\n" +
    "            #[yaserde(rename = \"Header\", prefix = \"soapenv\")]\n" +
    "            pub header: Option<Header>,\n" +
    "            #[yaserde(rename = \"Body\", prefix = \"soapenv\")]\n" +
    "            pub body: " + bodyType + ",\n" +
    "        }\n" +
    "        "
  }

  /** The body struct `Soap<Name>` of a binding operation's message, followed by its envelope. */
  function SoapWrapper(pascalName: string, operationName: string): string
  {
    var soapName := "Soap" + pascalName;
    "#[derive(Debug, Default, YaSerialize, YaDeserialize)]\npub struct " + soapName +
    " {\n\t#[yaserde(rename = \"" + operationName + "\", default)]\n\tpub body: " + PortsMod + "::" + pascalName +
    ",\n}\n" + SoapEnvelope(pascalName, soapName) + "\n"
  }
}
